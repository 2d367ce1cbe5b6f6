/** The cache of device capabilities. */
module CapabilityCache {
  // In the configuration without a database it is a map with a time to live, which drops the least
  // recently used tenth when it is full.
  //
  // Each call happens at one instant, `now`. Which of several entries last used at the same time goes
  // first is left open, as the sort of the program leaves it.

  import opened Options

  datatype DeviceId = DeviceId(text: string)

  /** The capabilities of a device, which the cache does not look into. */
  datatype Capabilities = Capabilities(content: string)

  datatype Entry = Entry(
    capabilities: Capabilities, createdAt: int, expiresAt: int, accessCount: int, lastAccessed: int, source: string)

  datatype Config = Config(ttl: int, capacity: int)

  const DEFAULT_TTL := 24 * 3600 * 1_000_000_000
  const DEFAULT_CAPACITY := 10000

  type Entries = map<DeviceId, Entry>

  predicate Expired(e: Entry, now: int) {
    now > e.expiresAt
  }

  predicate Hits(m: Entries, id: DeviceId, now: int) {
    id.text != "" && id in m && !Expired(m[id], now)
  }

  /** What Get answers. */
  function Answer(m: Entries, id: DeviceId, now: int): Option<Capabilities> {
    if Hits(m, id, now) then Some(m[id].capabilities) else None
  }

  function Touched(e: Entry, now: int): Entry {
    e.(accessCount := e.accessCount + 1, lastAccessed := now)
  }

  function AfterGet(m: Entries, id: DeviceId, now: int): Entries {
    if Hits(m, id, now) then m[id := Touched(m[id], now)] else m
  }

  /** How many of `n` entries one eviction drops: a tenth, but at least one if there is one. */
  function EvictCount(n: nat): (count: nat)
    ensures count <= n
  {
    var tenth := if n / 10 < 1 then 1 else n / 10;
    if tenth > n then n else tenth
  }

  /** `rest` is what one eviction may leave of `m`. */
  ghost predicate Evicted(m: Entries, rest: Entries) {
    && rest.Keys <= m.Keys
    && (forall id :: id in rest ==> rest[id] == m[id])
    && |rest.Keys| == |m.Keys| - EvictCount(|m.Keys|)
    && (forall gone, kept :: gone in m && gone !in rest && kept in rest ==>
          m[gone].lastAccessed <= m[kept].lastAccessed)
  }

  /** `rest` is what Set may leave of `m` before it stores. */
  ghost predicate MadeRoom(c: Config, m: Entries, rest: Entries) {
    if |m.Keys| >= c.capacity then Evicted(m, rest) else rest == m
  }

  function Fresh(c: Config, capabilities: Capabilities, source: string, now: int): Entry {
    Entry(capabilities, now, now + c.ttl, 0, now, source)
  }

  predicate Accepts(id: DeviceId, capabilities: Option<Capabilities>) {
    id.text != "" && capabilities.Some?
  }

  function AfterDeleteExpired(m: Entries, now: int): Entries {
    map id | id in m && !Expired(m[id], now) :: m[id]
  }

  // ---------- The cache object ----------

  datatype Item = Item(id: DeviceId, lastAccessed: int)

  predicate SortedByAccess(s: seq<Item>) {
    forall i, j :: 0 <= i < j < |s| ==> s[i].lastAccessed <= s[j].lastAccessed
  }

  predicate Distinct(s: seq<Item>) {
    forall i, j :: 0 <= i < j < |s| ==> s[i].id != s[j].id
  }

  function InsertAt(s: seq<Item>, e: Item, at: nat): (r: seq<Item>)
    requires at <= |s|
    ensures |r| == |s| + 1
    ensures forall k :: 0 <= k < |r| ==> r[k] == if k < at then s[k] else if k == at then e else s[k - 1]
    ensures forall x :: x in r <==> x == e || x in s
  {
    assert s == s[..at] + s[at..];
    s[..at] + [e] + s[at..]
  }

  class CapabilityCache {
    const config: Config
    var memoryCache: Entries
    var hits: int
    var misses: int
    var evictions: int

    constructor (ttl: int, capacity: int)
      ensures config.ttl == (if ttl == 0 then DEFAULT_TTL else ttl)
      ensures config.capacity == (if capacity == 0 then DEFAULT_CAPACITY else capacity)
      ensures memoryCache == map[] && hits == 0 && misses == 0 && evictions == 0
    {
      config := Config(if ttl == 0 then DEFAULT_TTL else ttl, if capacity == 0 then DEFAULT_CAPACITY else capacity);
      memoryCache := map[];
      hits, misses, evictions := 0, 0, 0;
    }

    /** GetWithContext, for a context that is not cancelled. */
    method Get(id: DeviceId, now: int) returns (found: Option<Capabilities>)
      modifies this`memoryCache, this`hits, this`misses
      ensures found == Answer(old(memoryCache), id, now)
      ensures memoryCache == AfterGet(old(memoryCache), id, now)
      ensures hits == old(hits) + if found.Some? then 1 else 0
      ensures misses == old(misses) + if found.None? && id.text != "" then 1 else 0
    {
      if id.text == "" {
        return None;
      }
      if id in memoryCache && !Expired(memoryCache[id], now) {
        memoryCache := memoryCache[id := Touched(memoryCache[id], now)];
        hits := hits + 1;
        return Some(memoryCache[id].capabilities);
      }
      misses := misses + 1;
      return None;
    }

    /** false is the error for an empty id or missing capabilities. */
    method Set(id: DeviceId, capabilities: Option<Capabilities>, source: string, now: int)
      returns (ok: bool, ghost rest: Entries)
      modifies this`memoryCache, this`evictions
      ensures ok == Accepts(id, capabilities)
      ensures !ok ==> memoryCache == old(memoryCache) && evictions == old(evictions)
      ensures ok ==> MadeRoom(config, old(memoryCache), rest)
      ensures ok ==> memoryCache == rest[id := Fresh(config, capabilities.value, source, now)]
      ensures ok ==> evictions == old(evictions) + |old(memoryCache).Keys| - |rest.Keys|
    {
      rest := memoryCache;
      if id.text == "" || capabilities.None? {
        return false, rest;
      }
      if |memoryCache| >= config.capacity {
        EvictOldest();
      }
      rest := memoryCache;
      memoryCache := memoryCache[id := Fresh(config, capabilities.value, source, now)];
      return true, rest;
    }

    /** The entries in the order of the map, which is not known. */
    method Items() returns (entries: seq<Item>)
      ensures Distinct(entries) && |entries| == |memoryCache.Keys|
      ensures forall e :: e in entries <==> e.id in memoryCache && e.lastAccessed == memoryCache[e.id].lastAccessed
    {
      entries := [];
      var todo := memoryCache.Keys;
      while todo != {}
        invariant todo <= memoryCache.Keys && Distinct(entries) && |entries| + |todo| == |memoryCache.Keys|
        invariant forall e :: e in entries <==>
                    e.id in memoryCache && e.id !in todo && e.lastAccessed == memoryCache[e.id].lastAccessed
        decreases |todo|
      {
        var id :| id in todo;
        assert forall i :: 0 <= i < |entries| ==> entries[i] in entries;
        entries := entries + [Item(id, memoryCache[id].lastAccessed)];
        todo := todo - {id};
      }
    }

    static method InsertByAccess(s: seq<Item>, e: Item) returns (r: seq<Item>)
      requires SortedByAccess(s) && Distinct(s) && forall k :: 0 <= k < |s| ==> s[k].id != e.id
      ensures SortedByAccess(r) && Distinct(r) && |r| == |s| + 1 && forall x :: x in r <==> x == e || x in s
    {
      var at := 0;
      while at < |s| && s[at].lastAccessed <= e.lastAccessed
        invariant at <= |s| && forall k :: 0 <= k < at ==> s[k].lastAccessed <= e.lastAccessed
      {
        at := at + 1;
      }
      r := InsertAt(s, e, at);
    }

    /** The sort of evictOldest, as an insertion sort. */
    static method SortByAccess(s: seq<Item>) returns (r: seq<Item>)
      requires Distinct(s)
      ensures SortedByAccess(r) && Distinct(r) && |r| == |s| && forall e :: e in r <==> e in s
    {
      r := [];
      for i := 0 to |s|
        invariant SortedByAccess(r) && Distinct(r) && |r| == i && forall e :: e in r <==> e in s[..i]
      {
        forall k | 0 <= k < |r| ensures r[k].id != s[i].id {
          assert r[k] in s[..i];
        }
        r := InsertByAccess(r, s[i]);
      }
      assert s[..|s|] == s;
    }

    method EvictOldest()
      modifies this`memoryCache, this`evictions
      ensures Evicted(old(memoryCache), memoryCache)
      ensures evictions == old(evictions) + |old(memoryCache).Keys| - |memoryCache.Keys|
    {
      var items := Items();
      var entries := SortByAccess(items);
      var evictCount := |entries| / 10;
      if evictCount < 1 {
        evictCount := 1;
      }
      if evictCount > |entries| {
        evictCount := |entries|;
      }
      ghost var before := memoryCache;
      assert forall e :: e in entries <==> e.id in before && e.lastAccessed == before[e.id].lastAccessed;
      for i := 0 to evictCount
        invariant memoryCache.Keys <= before.Keys && |memoryCache.Keys| == |before.Keys| - i
        invariant forall id :: id in memoryCache ==> memoryCache[id] == before[id]
        invariant forall k :: 0 <= k < |entries| ==> (entries[k].id in memoryCache <==> i <= k)
        invariant evictions == old(evictions) + i
      {
        assert entries[i] in entries;
        assert (memoryCache - {entries[i].id}).Keys == memoryCache.Keys - {entries[i].id};
        memoryCache := memoryCache - {entries[i].id};
        evictions := evictions + 1;
      }
      forall gone, kept | gone in before && gone !in memoryCache && kept in memoryCache
        ensures before[gone].lastAccessed <= before[kept].lastAccessed
      {
        assert Item(gone, before[gone].lastAccessed) in entries;
        assert Item(kept, before[kept].lastAccessed) in entries;
      }
    }

    method Delete(id: DeviceId)
      modifies this`memoryCache
      ensures memoryCache == old(memoryCache) - {id}
    {
      memoryCache := memoryCache - {id};
    }

    method DeleteExpired(now: int) returns (deleted: int)
      modifies this`memoryCache, this`evictions
      ensures memoryCache == AfterDeleteExpired(old(memoryCache), now)
      ensures deleted == |old(memoryCache).Keys| - |memoryCache.Keys|
      ensures evictions == old(evictions) + deleted
    {
      deleted := 0;
      var todo := memoryCache.Keys;
      while todo != {}
        invariant todo <= memoryCache.Keys <= old(memoryCache).Keys
        invariant forall id :: id in memoryCache ==> memoryCache[id] == old(memoryCache)[id]
        invariant forall id :: id in old(memoryCache) && id !in todo ==>
                    (id in memoryCache <==> !Expired(old(memoryCache)[id], now))
        invariant deleted == |old(memoryCache).Keys| - |memoryCache.Keys| && evictions == old(evictions)
        decreases |todo|
      {
        var id :| id in todo;
        if Expired(memoryCache[id], now) {
          assert (memoryCache - {id}).Keys == memoryCache.Keys - {id};
          memoryCache := memoryCache - {id};
          deleted := deleted + 1;
        }
        todo := todo - {id};
      }
      evictions := evictions + deleted;
    }
  }

  // ---------- Runs ----------

  datatype Op =
    | Get(id: DeviceId)
    | Set(id: DeviceId, capabilities: Option<Capabilities>, source: string)
    | Delete(id: DeviceId)
    | DeleteExpired

  /** A call, and what eviction left when it is a Set that stores. */
  datatype Call = Call(op: Op, now: int, rest: Entries)

  predicate Stores(call: Call) {
    call.op.Set? && Accepts(call.op.id, call.op.capabilities)
  }

  function After(c: Config, m: Entries, call: Call): Entries {
    match call.op
    case Get(id) => AfterGet(m, id, call.now)
    case Set(id, capabilities, source) =>
      if Accepts(id, capabilities) then call.rest[id := Fresh(c, capabilities.value, source, call.now)] else m
    case Delete(id) => m - {id}
    case DeleteExpired => AfterDeleteExpired(m, call.now)
  }

  /** The entries after the calls `h`, the latest last. */
  function Run(c: Config, h: seq<Call>): Entries {
    if h == [] then map[] else After(c, Run(c, h[..|h| - 1]), h[|h| - 1])
  }

  /** Time does not run backwards, and each eviction left what it may leave. */
  ghost predicate IsRun(c: Config, h: seq<Call>) {
    h != [] ==>
      && IsRun(c, h[..|h| - 1])
      && (|h| > 1 ==> h[|h| - 2].now <= h[|h| - 1].now)
      && (Stores(h[|h| - 1]) ==> MadeRoom(c, Run(c, h[..|h| - 1]), h[|h| - 1].rest))
  }

  lemma MoreKeys(a: set<DeviceId>, b: set<DeviceId>)
    requires a <= b
    ensures |a| <= |b|
  {
    assert b == a + (b - a);
  }

  /** The cache never holds more entries than its capacity, or one if that is not positive. */
  lemma {:induction false} NeverOverfull(c: Config, h: seq<Call>)
    requires IsRun(c, h)
    ensures |Run(c, h).Keys| <= if c.capacity < 1 then 1 else c.capacity
    decreases |h|
  {
    if h != [] {
      var before, call := h[..|h| - 1], h[|h| - 1];
      NeverOverfull(c, before);
      if Stores(call) {
        assert Run(c, h).Keys == call.rest.Keys + {call.op.id};
      } else if call.op.Delete? || call.op.DeleteExpired? {
        MoreKeys(Run(c, h).Keys, Run(c, before).Keys);
      } else {
        assert Run(c, h).Keys == Run(c, before).Keys;
      }
    }
  }

  /**
   A Set of a full cache drops exactly a tenth of the entries, but at least one, before it stores,
   even when the device is stored already and no room is needed.
   */
  lemma FullSetEvicts(c: Config, h: seq<Call>, call: Call)
    requires IsRun(c, h) && c.capacity >= 1
    ensures |Run(c, h).Keys| >= c.capacity && Stores(call) && MadeRoom(c, Run(c, h), call.rest) ==>
      && |call.rest.Keys| == c.capacity - (if c.capacity < 10 then 1 else c.capacity / 10)
      && |After(c, Run(c, h), call).Keys| == |call.rest.Keys| + if call.op.id in call.rest then 0 else 1
  {
    NeverOverfull(c, h);
    var m := Run(c, h);
    if |m.Keys| >= c.capacity && Stores(call) && MadeRoom(c, m, call.rest) {
      assert |call.rest.Keys| == c.capacity - EvictCount(c.capacity);
      assert After(c, Run(c, h), call).Keys == call.rest.Keys + {call.op.id};
    }
  }

  // ---------- What a hit returns ----------

  /** The calls touch the device: they store it or find it. */
  predicate Touches(c: Config, h: seq<Call>, i: int, id: DeviceId) {
    && 0 <= i < |h|
    && ((Stores(h[i]) && h[i].op.id == id) || (h[i].op == Get(id) && Hits(Run(c, h[..i]), id, h[i].now)))
  }

  predicate StoresIt(h: seq<Call>, i: int, id: DeviceId) {
    0 <= i < |h| && Stores(h[i]) && h[i].op.id == id
  }

  /** The entry at `id` was stored by call `i` and neither replaced nor deleted since. */
  predicate LastStored(h: seq<Call>, i: int, id: DeviceId) {
    && StoresIt(h, i, id)
    && forall j :: i < j < |h| ==> !StoresIt(h, j, id) && h[j].op != Delete(id)
  }

  /** The entry is what call `i` stored, and that was the last word on the device. */
  predicate IsFrom(c: Config, h: seq<Call>, i: int, id: DeviceId, e: Entry) {
    LastStored(h, i, id) && e.capabilities == h[i].op.capabilities.value && e.expiresAt == h[i].now + c.ttl
  }

  lemma {:induction false} EntryIsLastStored(c: Config, h: seq<Call>, id: DeviceId) returns (i: nat)
    requires IsRun(c, h) && id in Run(c, h)
    ensures IsFrom(c, h, i, id, Run(c, h)[id])
    decreases |h|
  {
    var n := |h| - 1;
    if StoresIt(h, n, id) {
      i := n;
    } else {
      assert id in Run(c, h[..n]);
      i := EntryIsLastStored(c, h[..n], id);
      assert forall j :: 0 <= j < n ==> h[..n][j] == h[j];
    }
  }

  /**
   A hit returns what the latest Set of the device stored, no later than the time to live after it,
   and only if the device was not deleted since.
   */
  lemma HitIsLastSet(c: Config, h: seq<Call>, id: DeviceId, now: int) returns (i: nat)
    requires IsRun(c, h) && Hits(Run(c, h), id, now)
    ensures IsFrom(c, h, i, id, Run(c, h)[id]) && now <= h[i].now + c.ttl
  {
    i := EntryIsLastStored(c, h, id);
  }

  // ---------- How long an entry is kept ----------

  lemma {:induction false} RunOrdered(c: Config, h: seq<Call>, i: nat, j: nat)
    requires IsRun(c, h) && i <= j < |h|
    ensures h[i].now <= h[j].now
    decreases |h|
  {
    if j < |h| - 1 {
      RunOrdered(c, h[..|h| - 1], i, j);
    } else if i < j {
      RunOrdered(c, h[..|h| - 1], i, j - 1);
    }
  }

  /** The devices other than `id` that a call at or after `since` touched. */
  ghost function OthersSince(c: Config, h: seq<Call>, id: DeviceId, since: int): set<DeviceId> {
    set i | 0 <= i < |h| && !h[i].op.DeleteExpired? && Touches(c, h, i, h[i].op.id) &&
            h[i].op.id != id && h[i].now >= since
      :: h[i].op.id
  }

  /** The access time of an entry is that of a call that touched it. */
  lemma {:induction false} AccessedByTouch(c: Config, h: seq<Call>, id: DeviceId) returns (i: nat)
    requires IsRun(c, h) && id in Run(c, h)
    ensures Touches(c, h, i, id) && Run(c, h)[id].lastAccessed == h[i].now
    decreases |h|
  {
    var n := |h| - 1;
    if Touches(c, h, n, id) {
      i := n;
    } else {
      assert id in Run(c, h[..n]);
      i := AccessedByTouch(c, h[..n], id);
      assert h[..n][..i] == h[..i] && h[..n][i] == h[i];
    }
  }

  lemma OthersGrow(c: Config, h: seq<Call>, id: DeviceId, since: int)
    requires h != []
    ensures |OthersSince(c, h[..|h| - 1], id, since)| <= |OthersSince(c, h, id, since)|
  {
    var n := |h| - 1;
    forall other | other in OthersSince(c, h[..n], id, since)
      ensures other in OthersSince(c, h, id, since)
    {
      var i :| 0 <= i < n && !h[..n][i].op.DeleteExpired? && Touches(c, h[..n], i, h[..n][i].op.id) &&
               h[..n][i].op.id == other && other != id && h[..n][i].now >= since;
      assert h[..n][..i] == h[..i] && h[..n][i] == h[i];
      assert Touches(c, h, i, h[i].op.id);
    }
    MoreKeys(OthersSince(c, h[..n], id, since), OthersSince(c, h, id, since));
  }

  /** An eviction that drops `id` leaves only devices touched since `id` was. */
  lemma SurvivorsWereTouched(c: Config, h: seq<Call>, id: DeviceId, rest: Entries)
    requires IsRun(c, h)
    ensures id in Run(c, h) && id !in rest && MadeRoom(c, Run(c, h), rest) ==>
              rest.Keys <= OthersSince(c, h, id, Run(c, h)[id].lastAccessed)
  {
    if id in Run(c, h) && id !in rest && MadeRoom(c, Run(c, h), rest) {
      forall kept | kept in rest
        ensures kept in OthersSince(c, h, id, Run(c, h)[id].lastAccessed)
      {
        var i := AccessedByTouch(c, h, kept);
        assert h[i].op.id == kept;
      }
    }
  }

  ghost predicate NotRemoved(c: Config, h: seq<Call>, k: nat, id: DeviceId, until: int) {
    forall j :: k < j < |h| ==> h[j].op != Delete(id) && (h[j].op.DeleteExpired? ==> h[j].now <= until)
  }

  lemma NotRemovedBefore(c: Config, h: seq<Call>, k: nat, id: DeviceId, until: int)
    requires k < |h| - 1 && NotRemoved(c, h, k, id, until)
    ensures NotRemoved(c, h[..|h| - 1], k, id, until)
    ensures var call := h[|h| - 1]; call.op != Delete(id) && (call.op.DeleteExpired? ==> call.now <= until)
  {
  }

  lemma SetExtends(c: Config, h: seq<Call>, id: DeviceId)
    requires IsRun(c, h) && h != [] && id in Run(c, h[..|h| - 1])
    ensures Run(c, h[..|h| - 1])[id].expiresAt <= h[|h| - 1].now + c.ttl
    ensures Run(c, h[..|h| - 1])[id].lastAccessed <= h[|h| - 1].now
  {
    var n := |h| - 1;
    var i := EntryIsLastStored(c, h[..n], id);
    RunOrdered(c, h, i, n);
    var k := AccessedByTouch(c, h[..n], id);
    RunOrdered(c, h, k, n);
  }

  /** One call keeps an entry that it neither deletes nor evicts for want of recent use. */
  lemma KeptByCall(c: Config, h: seq<Call>, id: DeviceId, since: int)
    requires IsRun(c, h) && c.capacity >= 1 && h != [] && id in Run(c, h[..|h| - 1])
    requires Run(c, h[..|h| - 1])[id].lastAccessed >= since
    requires h[|h| - 1].op != Delete(id)
    requires h[|h| - 1].op.DeleteExpired? ==> h[|h| - 1].now <= Run(c, h[..|h| - 1])[id].expiresAt
    requires |OthersSince(c, h[..|h| - 1], id, since)| < c.capacity - EvictCount(c.capacity)
    ensures id in Run(c, h) && Run(c, h)[id].lastAccessed >= since
    ensures Run(c, h)[id].expiresAt >= Run(c, h[..|h| - 1])[id].expiresAt
  {
    var before, call := h[..|h| - 1], h[|h| - 1];
    SetExtends(c, h, id);
    if Stores(call) && id !in call.rest {
      var others := OthersSince(c, before, id, Run(c, before)[id].lastAccessed);
      NeverOverfull(c, before);
      SurvivorsWereTouched(c, before, id, call.rest);
      assert others <= OthersSince(c, before, id, since);
      MoreKeys(call.rest.Keys, OthersSince(c, before, id, since));
      assert false;
    }
  }

  /** The entry of `id` is there, last used no earlier than `since`, and expires no earlier than `until`. */
  predicate Holds(m: Entries, id: DeviceId, since: int, until: int) {
    id in m && m[id].lastAccessed >= since && m[id].expiresAt >= until
  }

  lemma {:induction false} KeptFrom(c: Config, h: seq<Call>, k: nat, id: DeviceId, since: int, until: int)
    requires IsRun(c, h) && c.capacity >= 1 && k < |h| && Holds(Run(c, h[..k + 1]), id, since, until)
    requires NotRemoved(c, h, k, id, until) && |OthersSince(c, h, id, since)| < c.capacity - EvictCount(c.capacity)
    ensures Holds(Run(c, h), id, since, until)
    decreases |h|
  {
    var before := h[..|h| - 1];
    if k == |h| - 1 {
      assert h[..k + 1] == h;
    } else {
      assert before[..k + 1] == h[..k + 1];
      OthersGrow(c, h, id, since);
      NotRemovedBefore(c, h, k, id, until);
      KeptFrom(c, before, k, id, since, until);
      KeptByCall(c, h, id, since);
    }
  }

  /**
   A device that a call has stored or found stays until it is deleted or expires, as long as fewer
   other devices than one eviction leaves have been stored or found since.
   */
  lemma KeptWhileFewTouched(c: Config, h: seq<Call>, k: nat, id: DeviceId)
    requires IsRun(c, h) && c.capacity >= 1 && k < |h| && Touches(c, h, k, id) && id in Run(c, h[..k + 1])
    requires NotRemoved(c, h, k, id, Run(c, h[..k + 1])[id].expiresAt)
    requires |OthersSince(c, h, id, h[k].now)| < c.capacity - EvictCount(c.capacity)
    ensures Holds(Run(c, h), id, h[k].now, Run(c, h[..k + 1])[id].expiresAt)
  {
    assert h[..k + 1][..k] == h[..k];
    KeptFrom(c, h, k, id, h[k].now, Run(c, h[..k + 1])[id].expiresAt);
  }
}
