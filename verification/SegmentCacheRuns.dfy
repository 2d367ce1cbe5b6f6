/** Both tiers over whole runs. */
module SegmentCacheRuns {
  // What a hit returns and how old it can be, and how far the disk tier's byte counter strays from the
  // bytes that are really there.
  //
  // An operation happens at one instant, and the disk never fails: each segment file has its .meta
  // file and the other way round. Which of several equally old segments is evicted first is left
  // open; the directory listing decides it.

  import opened Options
  import opened SegmentCacheSpec
  import opened SegmentCacheSections

  // ---------- The disk tier ----------

  /** The bytes of all segment files. */
  ghost function Total(files: map<Key, File>): int
    decreases |files|
  {
    if files == map[] then 0
    else var key :| key in files; |files[key].data| + Total(files - {key})
  }

  predicate IsOldest(files: map<Key, File>, key: Key) {
    key in files && forall k :: k in files ==> files[key].mtime <= files[k].mtime
  }

  /** evictL2, when `key` is the one it picks. */
  function EvictDisk(d: Disk, key: Key): Disk
    requires key in d.files
  {
    Disk(d.files - {key}, d.size - |d.files[key].data|)
  }

  /** The loop of setL2 can turn d into e: oldest first, and only while the new bytes do not fit. */
  ghost predicate Evicts(c: Config, d: Disk, e: Disk, need: int)
    decreases |d.files|
  {
    if d.size + need <= c.l2MaxSize || d.files == map[] then e == d
    else exists key :: IsOldest(d.files, key) && Evicts(c, EvictDisk(d, key), e, need)
  }

  function WriteDisk(d: Disk, key: Key, data: Bytes, now: int): Disk {
    Disk(d.files[key := File(data, now)], d.size + |data|)
  }

  /** setL2 */
  ghost predicate PutDisk(c: Config, d: Disk, e: Disk, key: Key, data: Bytes, now: int) {
    if !c.l2On then e == d
    else exists room :: Evicts(c, d, room, |data|) && e == WriteDisk(room, key, data, now)
  }

  /** deleteL2 */
  function DeleteDisk(c: Config, d: Disk, key: Key): Disk {
    if !c.l2On || key !in d.files then d else EvictDisk(d, key)
  }

  predicate Expired(c: Config, f: File, now: int) {
    now > f.mtime + c.ttl
  }

  /** getL2: an expired segment is removed, and the counter not told. */
  function GetDisk(c: Config, d: Disk, key: Key, now: int): (Disk, Option<Bytes>) {
    if !c.l2On || key !in d.files then (d, None)
    else if Expired(c, d.files[key], now) then (d.(files := d.files - {key}), None)
    else (d, Some(d.files[key].data))
  }

  /** The disk half of cleanupExpired. */
  ghost function CleanDisk(c: Config, d: Disk, now: int): Disk {
    if !c.l2On then d
    else
      var kept := map k | k in d.files && !Expired(c, d.files[k], now) :: d.files[k];
      Disk(kept, d.size - (Total(d.files) - Total(kept)))
  }

  // ---------- The cache ----------

  datatype Op =
    | Get(key: Key) | Set(key: Key, data: Bytes) | Invalidate(key: Key) | InvalidateMedia(mediaId: string) | Cleanup

  datatype Event = Event(op: Op, now: int)

  /** Get: memory, then disk, and a segment found on disk is put in memory with a new expiry time. */
  function GetCache(c: Config, s: Cache, key: Key, now: int): (Cache, Option<Bytes>) {
    var (l1, hit) := GetMemory(s.l1, key, now);
    if hit.Some? then (s.(l1 := l1), hit)
    else
      var (l2, found) := GetDisk(c, s.l2, key, now);
      match found
      case Some(data) => (Cache(PutMemory(c, l1, key, data, now), l2), found)
      case None => (Cache(l1, l2), None)
  }

  /** The operation can take the cache from s to t. */
  ghost predicate Next(c: Config, s: Cache, e: Event, t: Cache) {
    match e.op
    case Get(key) => t == GetCache(c, s, key, e.now).0
    case Set(key, data) => t.l1 == PutMemory(c, s.l1, key, data, e.now) && PutDisk(c, s.l2, t.l2, key, data, e.now)
    case Invalidate(key) => t == Cache(DeleteMemory(s.l1, key), DeleteDisk(c, s.l2, key))
    case InvalidateMedia(mediaId) => t == s.(l1 := ForgetMedia(s.l1, mediaId))
    case Cleanup => t == Cache(CleanMemory(s.l1, e.now), CleanDisk(c, s.l2, e.now))
  }

  /** `states` is a run of a new cache through `events`. */
  ghost predicate IsRun(c: Config, events: seq<Event>, states: seq<Cache>) {
    && |states| == |events| + 1
    && states[0] == EMPTY
    && forall i :: 0 <= i < |events| ==> Next(c, states[i], events[i], states[i + 1])
  }

  // ---------- Totals ----------

  lemma {:induction false} TotalWithout(files: map<Key, File>, key: Key)
    requires key in files
    ensures Total(files) == |files[key].data| + Total(files - {key})
    decreases |files|
  {
    var first :| first in files && Total(files) == |files[first].data| + Total(files - {first});
    if first != key {
      TotalWithout(files - {first}, key);
      TotalWithout(files - {key}, first);
      assert files - {first} - {key} == files - {key} - {first};
    }
  }

  lemma TotalWrite(files: map<Key, File>, key: Key, f: File)
    ensures Total(files[key := f]) == Total(files) + |f.data| - if key in files then |files[key].data| else 0
  {
    TotalWithout(files[key := f], key);
    if key in files {
      TotalWithout(files, key);
      assert files[key := f] - {key} == files - {key};
    } else {
      assert files[key := f] - {key} == files;
    }
  }

  lemma {:induction false} TotalIsNat(files: map<Key, File>)
    ensures 0 <= Total(files)
    decreases |files|
  {
    if files != map[] {
      var key :| key in files;
      TotalWithout(files, key);
      TotalIsNat(files - {key});
    }
  }

  // ---------- Disk accounting ----------

  /** By how much the counter overstates what is on disk. */
  ghost function Drift(d: Disk): int {
    d.size - Total(d.files)
  }

  /** Evicting loses no drift and stops as soon as the new bytes fit. */
  lemma {:induction false} EvictsKeeps(c: Config, d: Disk, e: Disk, need: int)
    requires Evicts(c, d, e, need)
    ensures Drift(e) == Drift(d)
    ensures e.size + need <= c.l2MaxSize || e.files == map[]
    ensures forall k :: k in e.files ==> k in d.files && e.files[k] == d.files[k]
    decreases |d.files|
  {
    if !(d.size + need <= c.l2MaxSize || d.files == map[]) {
      var key :| IsOldest(d.files, key) && Evicts(c, EvictDisk(d, key), e, need);
      TotalWithout(d.files, key);
      EvictsKeeps(c, EvictDisk(d, key), e, need);
    }
  }

  /** Oldest first: nothing that is evicted is younger than anything that is kept. */
  lemma {:induction false} EvictsOldest(c: Config, d: Disk, e: Disk, need: int, gone: Key, kept: Key)
    requires Evicts(c, d, e, need)
    requires gone in d.files && gone !in e.files && kept in e.files && kept in d.files
    ensures d.files[gone].mtime <= d.files[kept].mtime
    decreases |d.files|
  {
    if !(d.size + need <= c.l2MaxSize || d.files == map[]) {
      var key :| IsOldest(d.files, key) && Evicts(c, EvictDisk(d, key), e, need);
      EvictsKeeps(c, EvictDisk(d, key), e, need);
      if key != gone {
        EvictsOldest(c, EvictDisk(d, key), e, need, gone, kept);
      }
    }
  }

  /** A counter that overstates by more than the limit allows costs every other segment. */
  lemma PutDiskAccounts(c: Config, d: Disk, e: Disk, key: Key, data: Bytes, now: int)
    requires c.l2On && PutDisk(c, d, e, key, data, now) && 0 <= Drift(d)
    ensures key in e.files && e.files[key] == File(data, now)
    ensures forall k :: k in e.files && k != key ==> k in d.files && e.files[k] == d.files[k]
    ensures Drift(d) <= Drift(e)
    ensures Total(e.files) <= c.l2MaxSize || e.files.Keys == {key}
    ensures Drift(d) + |data| > c.l2MaxSize ==> e.files.Keys == {key}
  {
    var room :| Evicts(c, d, room, |data|) && e == WriteDisk(room, key, data, now);
    EvictsKeeps(c, d, room, |data|);
    TotalWrite(room.files, key, File(data, now));
    TotalIsNat(room.files);
    TotalIsNat(room.files[key := File(data, now)]);
    if key in room.files {
      TotalWithout(room.files, key);
    }
  }

  /** The bytes that an operation takes off the disk without telling the counter, evictions aside. */
  function Unreported(c: Config, s: Cache, e: Event): int {
    match e.op
    case Set(key, _) =>
      if c.l2On && key in s.l2.files then |s.l2.files[key].data| else 0
    case Get(key) =>
      if c.l2On && GetMemory(s.l1, key, e.now).1.None? && key in s.l2.files && Expired(c, s.l2.files[key], e.now)
      then |s.l2.files[key].data| else 0
    case _ => 0
  }

  /**
   Where the drift comes from: a Set over a segment that is still on disk, and a Get that finds an
   expired one. Only a Set whose own evictions took the old segment first leaks nothing.
   */
  lemma StepDrift(c: Config, s: Cache, e: Event, t: Cache)
    requires Next(c, s, e, t)
    ensures Drift(t.l2) == Drift(s.l2) + Unreported(c, s, e) || (e.op.Set? && Drift(t.l2) == Drift(s.l2))
    ensures e.op.Set? && s.l2.size + |e.op.data| <= c.l2MaxSize ==>
              Drift(t.l2) == Drift(s.l2) + Unreported(c, s, e)
  {
    match e.op {
      case Get(key) =>
        if key in s.l2.files {
          TotalWithout(s.l2.files, key);
        }
      case Set(key, data) =>
        if c.l2On {
          var room :| Evicts(c, s.l2, room, |data|) && t.l2 == WriteDisk(room, key, data, e.now);
          EvictsKeeps(c, s.l2, room, |data|);
          TotalWrite(room.files, key, File(data, e.now));
        }
      case Invalidate(key) =>
        if key in s.l2.files {
          TotalWithout(s.l2.files, key);
        }
      case InvalidateMedia(mediaId) =>
      case Cleanup =>
    }
  }

  /** The counter never falls below the bytes on disk, and what it has once overstated it never gives back. */
  lemma {:induction false} DriftOnlyGrows(c: Config, events: seq<Event>, states: seq<Cache>, i: nat, j: nat)
    requires IsRun(c, events, states) && i <= j < |states|
    ensures 0 <= Drift(states[i].l2) <= Drift(states[j].l2)
    decreases j
  {
    if j > 0 {
      DriftOnlyGrows(c, events, states, if i < j then i else j - 1, j - 1);
      StepDrift(c, states[j - 1], events[j - 1], states[j]);
    }
  }

  /** After every Set with the disk tier on, the bytes on disk respect the limit, or the new segment is alone. */
  lemma DiskBound(c: Config, events: seq<Event>, states: seq<Cache>, i: nat)
    requires IsRun(c, events, states) && c.l2On && i < |events| && events[i].op.Set?
    ensures Total(states[i + 1].l2.files) <= c.l2MaxSize || states[i + 1].l2.files.Keys == {events[i].op.key}
  {
    DriftOnlyGrows(c, events, states, i, i);
    PutDiskAccounts(c, states[i].l2, states[i + 1].l2, events[i].op.key, events[i].op.data, events[i].now);
  }

  /** Once the counter overstates by more than the limit, each later Set leaves only its own segment on disk. */
  lemma DriftFlushesForever(c: Config, events: seq<Event>, states: seq<Cache>, i: nat, j: nat)
    requires IsRun(c, events, states) && c.l2On && i <= j < |events| && events[j].op.Set?
    requires Drift(states[i].l2) > c.l2MaxSize
    ensures states[j + 1].l2.files.Keys == {events[j].op.key}
  {
    DriftOnlyGrows(c, events, states, i, j);
    PutDiskAccounts(c, states[j].l2, states[j + 1].l2, events[j].op.key, events[j].op.data, events[j].now);
  }

  // When the counter overstates by more than the limit. Overwriting alone never does it.

  /** A Set takes the drift over the limit only if it was there before. */
  lemma SetDrift(c: Config, s: Cache, e: Event, t: Cache)
    requires Next(c, s, e, t) && e.op.Set?
    ensures Drift(t.l2) <= c.l2MaxSize || Drift(t.l2) == Drift(s.l2)
  {
    if c.l2On {
      var room :| Evicts(c, s.l2, room, |e.op.data|) && t.l2 == WriteDisk(room, e.op.key, e.op.data, e.now);
      EvictsKeeps(c, s.l2, room, |e.op.data|);
      TotalWrite(room.files, e.op.key, File(e.op.data, e.now));
      TotalIsNat(t.l2.files);
    }
  }

  /** The drift exceeds the limit only if some Get has removed an expired segment. */
  lemma {:induction false} OverdriftNeedsExpiry(c: Config, events: seq<Event>, states: seq<Cache>)
    requires IsRun(c, events, states) && 0 <= c.l2MaxSize
    requires forall i :: 0 <= i < |events| && events[i].op.Get? ==> Unreported(c, states[i], events[i]) == 0
    ensures 0 <= Drift(states[|events|].l2) <= c.l2MaxSize
    decreases |events|
  {
    if events != [] {
      var n := |events| - 1;
      OverdriftNeedsExpiry(c, events[..n], states[..n + 1]);
      StepDrift(c, states[n], events[n], states[n + 1]);
      if events[n].op.Set? {
        SetDrift(c, states[n], events[n], states[n + 1]);
      }
    }
  }

  function RoundStart(c: Config, round: nat): int {
    if round == 0 then 0 else RoundStart(c, round - 1) + c.ttl + 1
  }

  /** Whenever the segment has just expired, it is looked up, and stored again. */
  function Expiring(c: Config, key: Key, data: Bytes, rounds: nat): seq<Event> {
    if rounds == 0 then []
    else
      var at := RoundStart(c, rounds - 1);
      Expiring(c, key, data, rounds - 1) + [Event(Set(key, data), at), Event(Get(key), at + c.ttl + 1)]
  }

  lemma RunOneMore(c: Config, events: seq<Event>, states: seq<Cache>, e: Event, t: Cache)
    requires IsRun(c, events, states) && Next(c, states[|events|], e, t)
    ensures IsRun(c, events + [e], states + [t])
  {
  }

  /** One round on an empty disk leaves it empty, and the counter higher by the segment. */
  lemma ExpiringRound(c: Config, s: Cache, key: Key, data: Bytes, at: int) returns (m: Cache, t: Cache)
    requires c.l2On && s.l2.files == map[]
    ensures Next(c, s, Event(Set(key, data), at), m) && Next(c, m, Event(Get(key), at + c.ttl + 1), t)
    ensures t.l2 == Disk(map[], s.l2.size + |data|)
  {
    m := Cache(PutMemory(c, s.l1, key, data, at), WriteDisk(s.l2, key, data, at));
    assert Evicts(c, s.l2, s.l2, |data|);
    t := GetCache(c, m, key, at + c.ttl + 1).0;
    assert m.l1.nodes[0] == Node(key, data, at + c.ttl, true);
    assert Find(m.l1.nodes, key) == 0;
    assert m.l2.files - {key} == map[];
  }

  /** A run that leaves the disk empty, and the counter at `n` or more. */
  ghost predicate DriftsBy(c: Config, events: seq<Event>, states: seq<Cache>, n: int) {
    && IsRun(c, events, states)
    && states[|events|].l2.files == map[] && Drift(states[|events|].l2) >= n
  }

  lemma OneMoreRound(c: Config, key: Key, data: Bytes, at: int, events: seq<Event>, states: seq<Cache>, n: int)
      returns (more: seq<Cache>)
    requires c.l2On && data != [] && DriftsBy(c, events, states, n)
    ensures DriftsBy(c, events + [Event(Set(key, data), at), Event(Get(key), at + c.ttl + 1)], more, n + 1)
  {
    var put, get := Event(Set(key, data), at), Event(Get(key), at + c.ttl + 1);
    var m, t := ExpiringRound(c, states[|events|], key, data, at);
    RunOneMore(c, events, states, put, m);
    RunOneMore(c, events + [put], states + [m], get, t);
    assert events + [put] + [get] == events + [put, get];
    more := states + [m] + [t];
  }

  /** Each round adds to the drift. */
  lemma {:induction false} ExpiringDrifts(c: Config, key: Key, data: Bytes, rounds: nat) returns (states: seq<Cache>)
    requires c.l2On && data != []
    ensures DriftsBy(c, Expiring(c, key, data, rounds), states, rounds)
  {
    if rounds == 0 {
      states := [EMPTY];
    } else {
      var before := ExpiringDrifts(c, key, data, rounds - 1);
      states := OneMoreRound(c, key, data, RoundStart(c, rounds - 1), Expiring(c, key, data, rounds - 1),
                             before, rounds - 1);
    }
  }

  /**
   The drift can exceed the limit, whatever the limit: a run that ends with it, for every segment but
   an empty one.
   */
  lemma OverdriftHappens(c: Config, key: Key, data: Bytes) returns (events: seq<Event>, states: seq<Cache>)
    requires c.l2On && 0 <= c.l2MaxSize && data != []
    ensures IsRun(c, events, states) && Drift(states[|events|].l2) > c.l2MaxSize
    ensures events == Expiring(c, key, data, c.l2MaxSize + 1)
  {
    var rounds := c.l2MaxSize + 1;
    events := Expiring(c, key, data, rounds);
    states := ExpiringDrifts(c, key, data, rounds);
  }

  lemma {:induction false} OldestExists(files: map<Key, File>) returns (key: Key)
    requires files != map[]
    ensures IsOldest(files, key)
    decreases |files|
  {
    var first :| first in files;
    var rest := files - {first};
    assert forall k :: k in files ==> k == first || k in rest;
    key := first;
    if rest != map[] {
      var other := OldestExists(rest);
      if files[other].mtime < files[first].mtime {
        key := other;
      }
    }
  }

  /** The loop of setL2 always comes to an end. */
  lemma {:induction false} EvictsSomehow(c: Config, d: Disk, need: int) returns (e: Disk)
    ensures Evicts(c, d, e, need)
    decreases |d.files|
  {
    e := d;
    if !(d.size + need <= c.l2MaxSize || d.files == map[]) {
      var key := OldestExists(d.files);
      e := EvictsSomehow(c, EvictDisk(d, key), need);
      assert IsOldest(d.files, key) && Evicts(c, EvictDisk(d, key), e, need);
    }
  }

  /** Of two segments set one after the other, under different keys, only the second is left on disk. */
  ghost predicate NoTwoStay(c: Config, d: Disk) {
    forall k1, k2, d1, d2, e1, e2 ::
      k1 != k2 && PutDisk(c, d, e1, k1, d1, 0) && PutDisk(c, e1, e2, k2, d2, 0) ==> e2.files.Keys == {k2}
  }

  /** From a drift on, no two segments ever stay together iff it exceeds the limit. */
  lemma NoTwoStayIff(c: Config, d: Disk, k1: Key, k2: Key)
    requires c.l2On && 0 <= Drift(d) && k1 != k2
    ensures NoTwoStay(c, d) <==> Drift(d) > c.l2MaxSize
  {
    if Drift(d) > c.l2MaxSize {
      forall k1, k2, d1, d2, e1, e2 | k1 != k2 && PutDisk(c, d, e1, k1, d1, 0) && PutDisk(c, e1, e2, k2, d2, 0)
        ensures e2.files.Keys == {k2}
      {
        PutDiskAccounts(c, d, e1, k1, d1, 0);
        PutDiskAccounts(c, e1, e2, k2, d2, 0);
      }
    } else {
      var room := EvictsSomehow(c, d, 0);
      EvictsKeeps(c, d, room, 0);
      var e1 := WriteDisk(room, k1, [], 0);
      assert PutDisk(c, d, e1, k1, [], 0);
      assert Total(map[]) == 0;
      assert Evicts(c, e1, e1, 0);
      assert PutDisk(c, e1, WriteDisk(e1, k2, [], 0), k2, [], 0);
      assert k1 in WriteDisk(e1, k2, [], 0).files;
    }
  }

  // ---------- Freshness and coherence ----------

  datatype Stored = Stored(data: Bytes, at: int)

  /** Does the operation end what was stored under `key`? With the disk tier on, InvalidateMedia does not. */
  predicate Ends(c: Config, op: Op, key: Key) {
    match op
    case Invalidate(k) => k == key
    case InvalidateMedia(mediaId) => !c.l2On && HasPrefix(key, mediaId + ":")
    case _ => false
  }

  /** What the most recent Set stored under `key`, unless an invalidation came after it. */
  function LastSet(c: Config, events: seq<Event>, key: Key): Option<Stored> {
    if events == [] then None
    else
      var last := events[|events| - 1];
      if last.op.Set? && last.op.key == key then Some(Stored(last.op.data, last.now))
      else if Ends(c, last.op, key) then None
      else LastSet(c, events[..|events| - 1], key)
  }

  /** How long after its Set a segment can still be returned: promotion restarts the memory clock once. */
  function Lifetime(c: Config): int {
    if c.l2On then 2 * c.ttl else c.ttl
  }

  predicate FreshNode(c: Config, h: seq<Event>, n: Node) {
    match LastSet(c, h, n.key)
    case Some(st) => n.data == st.data && n.expiresAt <= st.at + Lifetime(c)
    case None => false
  }

  predicate FreshFile(c: Config, h: seq<Event>, key: Key, f: File) {
    LastSet(c, h, key) == Some(Stored(f.data, f.mtime))
  }

  /** All that either tier holds is what was set last. */
  ghost predicate Fresh(c: Config, s: Cache, h: seq<Event>) {
    && Structure(c, s.l1)
    && (forall n :: n in s.l1.nodes && n.live ==> FreshNode(c, h, n))
    && (forall key :: key in s.l2.files ==> FreshFile(c, h, key, s.l2.files[key]))
    && (!c.l2On ==> s.l2.files == map[])
  }

  /** Each live node of `after` was one of `before`. */
  predicate Survive(after: seq<Node>, before: seq<Node>) {
    forall n :: n in after && n.live ==> n in before
  }

  lemma {:induction false} MakeRoomSurvive(c: Config, m: Memory, need: int)
    ensures Survive(MakeRoom(c, m, need).nodes, m.nodes)
    decreases |m.nodes|
  {
    if MustEvict(c, m, need) {
      MakeRoomSurvive(c, EvictMemory(m), need);
    }
  }

  lemma DeleteSurvive(m: Memory, key: Key)
    requires OneOwner(m.nodes)
    ensures Survive(DeleteMemory(m, key).nodes, m.nodes)
    ensures forall n :: n in DeleteMemory(m, key).nodes && n.live ==> n.key != key
  {
    var i := Find(m.nodes, key);
    var d := DeleteMemory(m, key);
    forall n | n in d.nodes && n.live
      ensures n in m.nodes && n.key != key
    {
      var j :| 0 <= j < |d.nodes| && d.nodes[j] == n;
      assert n == m.nodes[Skip(i, j)];
    }
  }

  /** After a Put, a live node is the new one or an old one under another key. */
  lemma PutSurvive(c: Config, m: Memory, key: Key, data: Bytes, now: int, n: Node)
    requires m.size == Sum(m.nodes) && OneOwner(m.nodes)
    requires n in PutMemory(c, m, key, data, now).nodes && n.live
    ensures n == Node(key, data, now + c.ttl, true) || (n in m.nodes && n.key != key)
  {
    MakeRoomKeeps(c, m, |data|);
    MakeRoomSurvive(c, m, |data|);
    DeleteSurvive(MakeRoom(c, m, |data|), key);
  }

  lemma {:induction false} PurgeSurvive(nodes: seq<Node>, keys: set<Key>, now: int)
    ensures Survive(Purge(nodes, keys, now), nodes)
    decreases |nodes|
  {
    if nodes != [] {
      PurgeSurvive(nodes[1..], keys, now);
    }
  }

  lemma GetSurvive(c: Config, m: Memory, key: Key, now: int)
    requires Positive(c) && Structure(c, m)
    ensures Structure(c, GetMemory(m, key, now).0)
    ensures Survive(GetMemory(m, key, now).0.nodes, m.nodes)
  {
    var i := Find(m.nodes, key);
    DeleteSurvive(m, key);
    EnterKeeps(c, m, Delete(key));
    TouchKeeps(c, m, i);
  }

  // What a step does to the history of a key.

  lemma LastSetSnoc(c: Config, h: seq<Event>, e: Event, key: Key)
    ensures LastSet(c, h + [e], key) ==
            if e.op.Set? && e.op.key == key then Some(Stored(e.op.data, e.now))
            else if Ends(c, e.op, key) then None
            else LastSet(c, h, key)
  {
    assert (h + [e])[..|h + [e]| - 1] == h;
  }

  lemma FreshSet(c: Config, s: Cache, h: seq<Event>, e: Event, t: Cache)
    requires Positive(c) && Fresh(c, s, h) && e.op.Set? && Next(c, s, e, t)
    ensures Fresh(c, t, h + [e])
  {
    var key, data := e.op.key, e.op.data;
    PutKeeps(c, s.l1, key, data, e.now);
    forall n | n in t.l1.nodes && n.live
      ensures FreshNode(c, h + [e], n)
    {
      PutSurvive(c, s.l1, key, data, e.now, n);
      LastSetSnoc(c, h, e, n.key);
    }
    if c.l2On {
      var room :| Evicts(c, s.l2, room, |data|) && t.l2 == WriteDisk(room, key, data, e.now);
      EvictsKeeps(c, s.l2, room, |data|);
    }
    forall k | k in t.l2.files
      ensures FreshFile(c, h + [e], k, t.l2.files[k])
    {
      LastSetSnoc(c, h, e, k);
    }
  }

  lemma FreshGet(c: Config, s: Cache, h: seq<Event>, e: Event, t: Cache)
    requires Positive(c) && Fresh(c, s, h) && e.op.Get? && Next(c, s, e, t)
    ensures Fresh(c, t, h + [e])
  {
    var key := e.op.key;
    var l1 := GetMemory(s.l1, key, e.now).0;
    GetSurvive(c, s.l1, key, e.now);
    if t.l1 != l1 {
      PutKeeps(c, l1, key, s.l2.files[key].data, e.now);
    }
    forall n | n in t.l1.nodes && n.live
      ensures FreshNode(c, h + [e], n)
    {
      if t.l1 != l1 {
        PutSurvive(c, l1, key, s.l2.files[key].data, e.now, n);
      }
      LastSetSnoc(c, h, e, n.key);
    }
    forall k | k in t.l2.files
      ensures FreshFile(c, h + [e], k, t.l2.files[k])
    {
      LastSetSnoc(c, h, e, k);
    }
  }

  lemma FreshOther(c: Config, s: Cache, h: seq<Event>, e: Event, t: Cache)
    requires Positive(c) && Fresh(c, s, h) && Next(c, s, e, t)
    requires e.op.Invalidate? || e.op.InvalidateMedia? || e.op.Cleanup?
    ensures Fresh(c, t, h + [e])
  {
    match e.op {
      case Invalidate(key) =>
        EnterKeeps(c, s.l1, Delete(key));
        DeleteSurvive(s.l1, key);
      case InvalidateMedia(mediaId) =>
        ForgetKeeps(c, s.l1, mediaId);
      case Cleanup =>
        CleanKeeps(c, s.l1, e.now);
        PurgeSurvive(s.l1.nodes, LiveKeys(s.l1.nodes), e.now);
    }
    forall n | n in t.l1.nodes && n.live
      ensures FreshNode(c, h + [e], n)
    {
      LastSetSnoc(c, h, e, n.key);
    }
    forall k | k in t.l2.files
      ensures FreshFile(c, h + [e], k, t.l2.files[k])
    {
      LastSetSnoc(c, h, e, k);
    }
  }

  lemma {:induction false} FreshAlways(c: Config, events: seq<Event>, states: seq<Cache>, i: nat)
    requires Positive(c) && IsRun(c, events, states) && i < |states|
    ensures Fresh(c, states[i], events[..i])
  {
    if i > 0 {
      FreshAlways(c, events, states, i - 1);
      var h, e := events[..i - 1], events[i - 1];
      assert events[..i] == h + [e];
      if e.op.Set? {
        FreshSet(c, states[i - 1], h, e, states[i]);
      } else if e.op.Get? {
        FreshGet(c, states[i - 1], h, e, states[i]);
      } else {
        FreshOther(c, states[i - 1], h, e, states[i]);
      }
    }
  }

  /**
   After any run, whatever Get returns at time `now` is exactly what was set last under the key,
   that Set is not older than the lifetime, and no invalidation came after it.
   */
  lemma HitIsFresh(c: Config, events: seq<Event>, states: seq<Cache>, key: Key, now: int)
    requires Positive(c) && IsRun(c, events, states)
    ensures var hit := GetCache(c, states[|events|], key, now).1;
      hit.Some? ==>
        && LastSet(c, events, key).Some?
        && LastSet(c, events, key).value.data == hit.value
        && now <= LastSet(c, events, key).value.at + Lifetime(c)
  {
    var s := states[|events|];
    FreshAlways(c, events, states, |events|);
    assert events[..|events|] == events;
    var i := Find(s.l1.nodes, key);
    if i < |s.l1.nodes| {
      assert FreshNode(c, events, s.l1.nodes[i]);
    }
  }

  /**
   The lifetime bound is tight: in a run that drops the segment from memory, it is promoted at the last
   moment and returned one TTL later.
   */
  lemma PromotionRestartsClock(c: Config, mediaId: string, key: Key, data: Bytes) returns (states: seq<Cache>)
    requires Positive(c) && c.l2On && HasPrefix(key, mediaId + ":")
    ensures IsRun(c, [Event(Set(key, data), 0), Event(InvalidateMedia(mediaId), 0), Event(Get(key), c.ttl)], states)
    ensures GetCache(c, states[3], key, Lifetime(c)).1 == Some(data)
  {
    var stored := Cache(PutMemory(c, EMPTY.l1, key, data, 0), WriteDisk(EMPTY.l2, key, data, 0));
    assert Evicts(c, EMPTY.l2, EMPTY.l2, |data|);
    var forgotten := stored.(l1 := ForgetMedia(stored.l1, mediaId));
    assert Find(forgotten.l1.nodes, key) == |forgotten.l1.nodes|;
    var promoted := GetCache(c, forgotten, key, c.ttl).0;
    assert promoted.l1 == PutMemory(c, forgotten.l1, key, data, c.ttl);
    assert promoted.l1.nodes[0] == Node(key, data, 2 * c.ttl, true);
    assert Find(promoted.l1.nodes, key) == 0;
    states := [EMPTY, stored, forgotten, promoted];
  }

  /** A segment is found as long as its time to live runs, right after it was set. */
  lemma SetThenGet(c: Config, s: Cache, key: Key, data: Bytes, at: int, t: Cache, now: int)
    ensures Next(c, s, Event(Set(key, data), at), t) && now <= at + c.ttl ==> GetCache(c, t, key, now).1 == Some(data)
  {
    var m := PutMemory(c, s.l1, key, data, at);
    assert m.nodes[0] == Node(key, data, at + c.ttl, true);
    assert Find(m.nodes, key) == 0;
  }

  /** After InvalidateMedia the memory tier misses on the item's keys; what is left is the disk tier's answer. */
  lemma InvalidateMediaLeavesDisk(c: Config, s: Cache, mediaId: string, at: int, t: Cache, key: Key, now: int)
    ensures Next(c, s, Event(InvalidateMedia(mediaId), at), t) && HasPrefix(key, mediaId + ":") ==>
              (GetCache(c, t, key, now).1.Some? <==> c.l2On && key in s.l2.files && !Expired(c, s.l2.files[key], now))
  {
    var m := ForgetMedia(s.l1, mediaId);
    assert HasPrefix(key, mediaId + ":") ==> Find(m.nodes, key) == |m.nodes|;
  }

  /** The last operation of `xs` that stores or invalidates the key. */
  function LastOn(xs: seq<Event>, key: Key): Option<Op> {
    if xs == [] then None
    else
      var op := xs[|xs| - 1].op;
      if (op.Set? && op.key == key) || op == Invalidate(key) then Some(op) else LastOn(xs[..|xs| - 1], key)
  }

  lemma {:induction false} LastSetAfter(c: Config, h: seq<Event>, xs: seq<Event>, key: Key)
    requires c.l2On
    ensures LastOn(xs, key).Some? ==>
              || LastOn(xs, key).value == Invalidate(key)
              || (LastOn(xs, key).value.Set? && LastOn(xs, key).value.key == key)
    ensures match LastOn(xs, key)
      case Some(Set(_, data)) => LastSet(c, h + xs, key).Some? && LastSet(c, h + xs, key).value.data == data
      case Some(_) => LastSet(c, h + xs, key) == None
      case None => LastSet(c, h + xs, key) == LastSet(c, h, key)
    decreases |xs|
  {
    if xs == [] {
      assert h + xs == h;
    } else {
      var n := |xs| - 1;
      LastSetAfter(c, h, xs[..n], key);
      LastSetSnoc(c, h + xs[..n], xs[n], key);
      assert h + xs == h + xs[..n] + [xs[n]];
    }
  }

  /** A hit with `data` is fresh: it is what was set last, and was not invalidated since. */
  predicate IsFresh(c: Config, h: seq<Event>, key: Key, data: Bytes) {
    LastSet(c, h, key).Some? && LastSet(c, h, key).value.data == data
  }

  /**
   Get is not one critical section. After any run a Get reads a segment from disk; other operations
   `xs` run; then it stores the segment in memory. What the next Get finds is fresh iff the last of
   `xs` on the key, if there is one, is a Set of the same bytes. An Invalidate in between is undone.
   `t` is the cache that `xs` leave: it may be any cache, since the Get asks nothing of it.
   */
  lemma SplitGetIsFreshIff(c: Config, events: seq<Event>, states: seq<Cache>, key: Key, now: int,
                           xs: seq<Event>, t: Cache, later: int)
    requires Positive(c) && IsRun(c, events, states) && GetDisk(c, states[|events|].l2, key, now).1.Some?
    ensures var data := GetDisk(c, states[|events|].l2, key, now).1.value;
      var promoted := t.(l1 := PutMemory(c, t.l1, key, data, later));
      && GetCache(c, promoted, key, later).1 == Some(data)
      && (IsFresh(c, events + xs, key, data) <==> LastOn(xs, key) == None || LastOn(xs, key) == Some(Set(key, data)))
  {
    var s := states[|events|];
    var data := GetDisk(c, s.l2, key, now).1.value;
    FreshAlways(c, events, states, |events|);
    assert events[..|events|] == events;
    assert FreshFile(c, events, key, s.l2.files[key]);
    LastSetAfter(c, events, xs, key);
    var m := PutMemory(c, t.l1, key, data, later);
    assert m.nodes[0] == Node(key, data, later + c.ttl, true);
    assert Find(m.nodes, key) == 0;
  }

  // ---------- Keys ----------

  /** makeKey, over the hexadecimal digest that it takes of the three parts joined by colons. */
  function MakeKey(digest: string -> string, mediaId: string, variant: string, segmentId: string): Key {
    Key(mediaId + ":" + digest(mediaId + ":" + variant + ":" + segmentId))
  }

  ghost predicate Injective(digest: string -> string) {
    forall a, b :: digest(a) == digest(b) ==> a == b
  }

  /**
   Even under a digest without collisions, two segments of an item share a key whenever variant
   and segment id read the same once joined: a colon in either name is enough.
   */
  lemma SameKeyIff(digest: string -> string, m: string, v: string, g: string, v': string, g': string)
    requires Injective(digest)
    ensures MakeKey(digest, m, v, g) == MakeKey(digest, m, v', g') <==> v + ":" + g == v' + ":" + g'
    ensures MakeKey(digest, m, "a:b", "c") == MakeKey(digest, m, "a", "b:c")
  {
    var x, y := m + ":" + v + ":" + g, m + ":" + v' + ":" + g';
    assert x == (m + ":") + (v + ":" + g) && y == (m + ":") + (v' + ":" + g');
    assert x[|m| + 1..] == v + ":" + g && y[|m| + 1..] == v' + ":" + g';
    var k, k' := MakeKey(digest, m, v, g), MakeKey(digest, m, v', g');
    assert k.text[|m| + 1..] == digest(x) && k'.text[|m| + 1..] == digest(y);
    assert m + ":" + "a:b" + ":" + "c" == m + ":" + "a" + ":" + "b:c";
  }

  /**
   InvalidateMedia(m) reaches every segment of m, and the segments of another item exactly when
   that item's id continues m with a colon.
   */
  lemma InvalidatedIff(digest: string -> string, m: string, item: string, v: string, g: string)
    requires ':' !in digest(item + ":" + v + ":" + g)
    ensures HasPrefix(MakeKey(digest, item, v, g), m + ":") <==> item == m || m + ":" <= item
  {
    var key, prefix := MakeKey(digest, item, v, g).text, m + ":";
    var tail := digest(item + ":" + v + ":" + g);
    assert key[|item|] == ':';
    if |item| < |m| < |key| {
      assert key[|m|] == tail[|m| - |item| - 1];
    }
    if prefix <= key {
      assert key[|m|] == prefix[|m|] == ':';
      assert |m| <= |item|;
      if |m| == |item| {
        assert item == key[..|m|] == prefix[..|m|] == m;
      } else {
        assert item[..|prefix|] == key[..|prefix|];
      }
    }
    if item == m {
      assert key[..|prefix|] == prefix;
    } else if prefix <= item {
      assert key[..|prefix|] == item[..|prefix|];
    }
  }
}
