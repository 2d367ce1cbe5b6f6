/** Both tiers under every interleaving of calls. */
module SegmentCacheInterleaved {
  // Any number of calls of Get, Set and Invalidate are under way, and between the parts of one anything
  // can happen. What a hit can then return, and exactly when it is not what was set last.
  //
  // A part is one critical section of the memory tier, or one access to a segment on disk. What getL1
  // does after its lookup is a part of its own: moving an entry to the front, or deleting what the key
  // has by then. So is each removal of a segment from disk, by getL2, by the cleanup or by an eviction.

  import opened Options
  import opened SegmentCacheSpec
  import opened SegmentCacheSections
  import opened SegmentCacheRuns

  /**
   A part of a call. `id` tells the Gets apart. RemoveDisk is the removal of an expired segment, which
   getL2 does not tell the counter of, or the eviction of one by setL2.
   */
  datatype Part =
    | TouchMemory(at: nat)
    | ExpireMemory(key: Key)
    | SetMemory(key: Key, data: Bytes, now: int)
    | DropMemory(key: Key)
    | ForgetMemory(mediaId: string)
    | CleanL1(now: int)
    | ReadDisk(id: nat, key: Key, now: int)
    | Promote(id: nat, now: int)
    | SetDisk(key: Key, data: Bytes, now: int)
    | DropDisk(key: Key)
    | RemoveDisk(key: Key, counted: bool)

  /** The bytes that a Get has read from disk and not yet stored in memory. */
  datatype Held = Held(key: Key, data: Bytes)

  datatype State = State(cache: Cache, pending: map<nat, Held>)

  ghost function Do(c: Config, s: State, x: Part): State {
    var l1, l2 := s.cache.l1, s.cache.l2;
    match x
    case TouchMemory(at) => s.(cache := Cache(SegmentCacheSpec.TouchMemory(l1, at), l2))
    case ExpireMemory(key) => s.(cache := Cache(DeleteMemory(l1, key), l2))
    case SetMemory(key, data, now) => s.(cache := Cache(PutMemory(c, l1, key, data, now), l2))
    case DropMemory(key) => s.(cache := Cache(DeleteMemory(l1, key), l2))
    case ForgetMemory(mediaId) => s.(cache := Cache(ForgetMedia(l1, mediaId), l2))
    case CleanL1(now) => s.(cache := Cache(CleanMemory(l1, now), l2))
    case ReadDisk(id, key, now) =>
      var found := GetDisk(c, l2, key, now).1;
      s.(pending := if found.Some? then s.pending[id := Held(key, found.value)] else s.pending - {id})
    case Promote(id, now) =>
      if id !in s.pending then s
      else State(Cache(PutMemory(c, l1, s.pending[id].key, s.pending[id].data, now), l2), s.pending - {id})
    case SetDisk(key, data, now) => s.(cache := Cache(l1, if c.l2On then WriteDisk(l2, key, data, now) else l2))
    case DropDisk(key) => s.(cache := Cache(l1, DeleteDisk(c, l2, key)))
    case RemoveDisk(key, counted) =>
      s.(cache := Cache(l1, if counted then DeleteDisk(c, l2, key) else l2.(files := l2.files - {key})))
  }

  /** The state after the parts `h`, the latest last. */
  ghost function Run(c: Config, h: seq<Part>): State {
    if h == [] then State(EMPTY, map[]) else Do(c, Run(c, h[..|h| - 1]), h[|h| - 1])
  }

  // ---------- What each tier was given last ----------

  datatype Effect = Gives(key: Key, data: Bytes) | Drops(key: Key) | Leaves

  /** What a part does to the memory tier on purpose; eviction, expiry and InvalidateMedia apart. */
  function OnMemory(s: State, x: Part): Effect {
    match x
    case Promote(id, _) => if id in s.pending then Gives(s.pending[id].key, s.pending[id].data) else Leaves
    case SetMemory(key, data, _) => Gives(key, data)
    case DropMemory(key) => Drops(key)
    case _ => Leaves
  }

  function OnDisk(c: Config, x: Part): Effect {
    match x
    case SetDisk(key, data, _) => if c.l2On then Gives(key, data) else Leaves
    case DropDisk(key) => if c.l2On then Drops(key) else Leaves
    case _ => Leaves
  }

  function AfterEffect(before: Option<Bytes>, e: Effect, key: Key): Option<Bytes> {
    match e
    case Gives(k, data) => if k == key then Some(data) else before
    case Drops(k) => if k == key then None else before
    case Leaves => before
  }

  /** What was stored in memory under the key last, by a Set or a promotion, unless it was dropped since. */
  ghost function InMemory(c: Config, h: seq<Part>, key: Key): Option<Bytes> {
    if h == [] then None
    else AfterEffect(InMemory(c, h[..|h| - 1], key), OnMemory(Run(c, h[..|h| - 1]), h[|h| - 1]), key)
  }

  function OnDiskLast(c: Config, h: seq<Part>, key: Key): Option<Bytes> {
    if h == [] then None else AfterEffect(OnDiskLast(c, h[..|h| - 1], key), OnDisk(c, h[|h| - 1]), key)
  }

  /** What a Set stored last, in the order of the memory tier, unless it was invalidated since. */
  function LastSet(h: seq<Part>, key: Key): Option<Bytes> {
    if h == [] then None
    else
      var x := h[|h| - 1];
      if x.SetMemory? && x.key == key then Some(x.data)
      else if x == DropMemory(key) then None
      else LastSet(h[..|h| - 1], key)
  }

  // ---------- The invariant ----------

  /** What one part leaves in memory: what it gives, and of the rest only what was there. */
  lemma MemoryKept(c: Config, s: State, x: Part, n: Node)
    requires Positive(c) && Structure(c, s.cache.l1)
    requires n in Do(c, s, x).cache.l1.nodes && n.live
    ensures match OnMemory(s, x)
      case Gives(key, data) => if n.key == key then n.data == data else n in LiveNodes(s.cache.l1)
      case Drops(key) => n.key != key && n in LiveNodes(s.cache.l1)
      case Leaves => n in LiveNodes(s.cache.l1)
  {
    var l1 := s.cache.l1;
    match x {
      case TouchMemory(at) => MoveToFrontMembers(l1.nodes, at);
      case ExpireMemory(key) => DeleteSurvive(l1, key);
      case Promote(id, now) =>
        if id in s.pending {
          PutSurvive(c, l1, s.pending[id].key, s.pending[id].data, now, n);
        }
      case SetMemory(key, data, now) => PutSurvive(c, l1, key, data, now, n);
      case DropMemory(key) => DeleteSurvive(l1, key);
      case ForgetMemory(mediaId) =>
      case CleanL1(now) => PurgeSurvive(l1.nodes, LiveKeys(l1.nodes), now);
      case _ =>
    }
  }

  function LiveNodes(m: Memory): set<Node> {
    set n | n in m.nodes && n.live
  }

  lemma StructureKept(c: Config, s: State, x: Part)
    requires Positive(c) && Structure(c, s.cache.l1)
    ensures Structure(c, Do(c, s, x).cache.l1)
  {
    var l1 := s.cache.l1;
    match x {
      case TouchMemory(at) => TouchKeeps(c, l1, at);
      case ExpireMemory(key) => EnterKeeps(c, l1, Delete(key));
      case Promote(id, now) =>
        if id in s.pending {
          PutKeeps(c, l1, s.pending[id].key, s.pending[id].data, now);
        }
      case SetMemory(key, data, now) => PutKeeps(c, l1, key, data, now);
      case DropMemory(key) => EnterKeeps(c, l1, Delete(key));
      case ForgetMemory(mediaId) => ForgetKeeps(c, l1, mediaId);
      case CleanL1(now) => CleanKeeps(c, l1, now);
      case _ =>
    }
  }

  ghost predicate MemoryOk(c: Config, h: seq<Part>) {
    && Structure(c, Run(c, h).cache.l1)
    && forall n :: n in LiveNodes(Run(c, h).cache.l1) ==> InMemory(c, h, n.key) == Some(n.data)
  }

  lemma {:induction false} AlwaysMemoryOk(c: Config, h: seq<Part>)
    requires Positive(c)
    ensures MemoryOk(c, h)
    decreases |h|
  {
    if h != [] {
      var before, x := h[..|h| - 1], h[|h| - 1];
      var s := Run(c, before);
      AlwaysMemoryOk(c, before);
      StructureKept(c, s, x);
      forall n | n in LiveNodes(Run(c, h).cache.l1)
        ensures InMemory(c, h, n.key) == Some(n.data)
      {
        MemoryKept(c, s, x, n);
      }
    }
  }

  lemma DiskKept(c: Config, s: State, x: Part, key: Key)
    requires key in Do(c, s, x).cache.l2.files
    ensures match OnDisk(c, x)
      case Gives(k, data) =>
        if k == key then Do(c, s, x).cache.l2.files[key].data == data
        else key in s.cache.l2.files && Do(c, s, x).cache.l2.files[key] == s.cache.l2.files[key]
      case Drops(k) => k != key && key in s.cache.l2.files && Do(c, s, x).cache.l2.files[key] == s.cache.l2.files[key]
      case Leaves => key in s.cache.l2.files && Do(c, s, x).cache.l2.files[key] == s.cache.l2.files[key]
  {
  }

  ghost predicate DiskOk(c: Config, h: seq<Part>) {
    forall key :: key in Run(c, h).cache.l2.files ==> OnDiskLast(c, h, key) == Some(Run(c, h).cache.l2.files[key].data)
  }

  lemma {:induction false} AlwaysDiskOk(c: Config, h: seq<Part>)
    ensures DiskOk(c, h)
    decreases |h|
  {
    if h != [] {
      var before, x := h[..|h| - 1], h[|h| - 1];
      AlwaysDiskOk(c, before);
      forall key | key in Run(c, h).cache.l2.files
        ensures OnDiskLast(c, h, key) == Some(Run(c, h).cache.l2.files[key].data)
      {
        DiskKept(c, Run(c, before), x, key);
      }
    }
  }

  /** The latest read of a Get that has not been stored in memory since. */
  function ReadOf(h: seq<Part>, id: nat): (i: Option<nat>)
    ensures i.Some? ==> i.value < |h| && h[i.value].ReadDisk? && h[i.value].id == id
  {
    if h == [] then None
    else
      var x := h[|h| - 1];
      if x.ReadDisk? && x.id == id then Some(|h| - 1)
      else if x.Promote? && x.id == id then None
      else ReadOf(h[..|h| - 1], id)
  }

  /** What a Get holds is what the disk was given last under its key when it read it. */
  lemma {:induction false} HeldWasRead(c: Config, h: seq<Part>, id: nat)
    requires id in Run(c, h).pending
    ensures ReadOf(h, id).Some?
    ensures var i, held := ReadOf(h, id).value, Run(c, h).pending[id];
      held.key == h[i].key && OnDiskLast(c, h[..i], held.key) == Some(held.data)
    decreases |h|
  {
    var before, x := h[..|h| - 1], h[|h| - 1];
    if x.ReadDisk? && x.id == id {
      AlwaysDiskOk(c, before);
    } else {
      HeldWasRead(c, before, id);
      var i := ReadOf(before, id).value;
      assert ReadOf(h, id) == Some(i);
      assert before[..i] == h[..i];
    }
  }

  // ---------- What hits return ----------

  /** A hit in memory is what was stored there last under the key; one on disk, what was written there last. */
  lemma HitIsLastStored(c: Config, h: seq<Part>, key: Key, now: int)
    requires Positive(c)
    ensures var hit := GetMemory(Run(c, h).cache.l1, key, now).1; hit.Some? ==> InMemory(c, h, key) == hit
    ensures var hit := GetDisk(c, Run(c, h).cache.l2, key, now).1; hit.Some? ==> OnDiskLast(c, h, key) == hit
  {
    AlwaysMemoryOk(c, h);
    AlwaysDiskOk(c, h);
    var m := Run(c, h).cache.l1;
    var i := Find(m.nodes, key);
    if i < |m.nodes| {
      assert m.nodes[i] in LiveNodes(m);
    }
  }

  /** Some Set of the key has stored or written these bytes. */
  predicate WasSet(h: seq<Part>, key: Key, data: Bytes) {
    exists i :: 0 <= i < |h| && (h[i].SetMemory? || h[i].SetDisk?) && h[i].key == key && h[i].data == data
  }

  lemma WasSetEarlier(h: seq<Part>, n: nat, key: Key, data: Bytes)
    requires n <= |h| && WasSet(h[..n], key, data)
    ensures WasSet(h, key, data)
  {
    var i :| 0 <= i < n && (h[i].SetMemory? || h[i].SetDisk?) && h[i].key == key && h[i].data == data;
  }

  lemma {:induction false} WrittenWasSet(c: Config, h: seq<Part>, key: Key)
    requires OnDiskLast(c, h, key).Some?
    ensures WasSet(h, key, OnDiskLast(c, h, key).value)
    decreases |h|
  {
    var n := |h| - 1;
    if OnDisk(c, h[n]).Gives? && OnDisk(c, h[n]).key == key {
      assert h[n].data == OnDiskLast(c, h, key).value;
    } else {
      WrittenWasSet(c, h[..n], key);
      WasSetEarlier(h, n, key, OnDiskLast(c, h, key).value);
    }
  }

  lemma {:induction false} StoredWasSet(c: Config, h: seq<Part>, key: Key)
    requires InMemory(c, h, key).Some?
    ensures WasSet(h, key, InMemory(c, h, key).value)
    decreases |h|
  {
    var n := |h| - 1;
    var x, data := h[n], InMemory(c, h, key).value;
    var e := OnMemory(Run(c, h[..n]), x);
    if e.Gives? && e.key == key {
      if x.SetMemory? {
        assert h[n].data == data;
      } else {
        HeldWasRead(c, h[..n], x.id);
        var i := ReadOf(h[..n], x.id).value;
        assert h[..n][..i] == h[..i];
        WrittenWasSet(c, h[..i], key);
        WasSetEarlier(h, i, key, data);
      }
    } else {
      StoredWasSet(c, h[..n], key);
      WasSetEarlier(h, n, key, data);
    }
  }

  /** Under every interleaving a hit in either tier returns bytes that some Set of the same key was given. */
  lemma HitWasSet(c: Config, h: seq<Part>, key: Key, now: int)
    requires Positive(c)
    ensures var hit := GetMemory(Run(c, h).cache.l1, key, now).1; hit.Some? ==> WasSet(h, key, hit.value)
    ensures var hit := GetDisk(c, Run(c, h).cache.l2, key, now).1; hit.Some? ==> WasSet(h, key, hit.value)
  {
    HitIsLastStored(c, h, key, now);
    if GetMemory(Run(c, h).cache.l1, key, now).1.Some? {
      StoredWasSet(c, h, key);
    }
    if GetDisk(c, Run(c, h).cache.l2, key, now).1.Some? {
      WrittenWasSet(c, h, key);
    }
  }

  // ---------- When hits are stale ----------

  /** Every hit in memory, at any time, is what was set last. */
  ghost predicate MemoryFresh(c: Config, h: seq<Part>) {
    forall key, now :: GetMemory(Run(c, h).cache.l1, key, now).1.Some? ==>
      GetMemory(Run(c, h).cache.l1, key, now).1 == LastSet(h, key)
  }

  ghost predicate AlwaysFresh(c: Config, h: seq<Part>) {
    MemoryFresh(c, h) && (h != [] ==> AlwaysFresh(c, h[..|h| - 1]))
  }

  /** The segment that lies on disk under the key: written last, and not removed since. */
  function FileOf(c: Config, h: seq<Part>, key: Key): Option<File> {
    if h == [] then None
    else
      var before := FileOf(c, h[..|h| - 1], key);
      match h[|h| - 1]
      case SetDisk(k, data, now) => if c.l2On && k == key then Some(File(data, now)) else before
      case DropDisk(k) => if k == key then None else before
      case RemoveDisk(k, _) => if k == key then None else before
      case _ => before
  }

  lemma {:induction false} FilesAre(c: Config, h: seq<Part>, key: Key)
    ensures var files := Run(c, h).cache.l2.files;
      FileOf(c, h, key) == (if key in files then Some(files[key]) else None) && (!c.l2On ==> key !in files)
    decreases |h|
  {
    if h != [] {
      FilesAre(c, h[..|h| - 1], key);
    }
  }

  /** The disk tier answers with what lies under the key, until its time to live has passed. */
  lemma DiskAnswers(c: Config, h: seq<Part>, key: Key, now: int)
    ensures GetDisk(c, Run(c, h).cache.l2, key, now).1 == match FileOf(c, h, key)
      case Some(f) => if now <= f.mtime + c.ttl then Some(f.data) else None
      case None => None
  {
    FilesAre(c, h, key);
  }

  /** What the Get has found on disk, and not yet stored. */
  function Found(c: Config, h: seq<Part>, id: nat): Option<Held> {
    match ReadOf(h, id)
    case None => None
    case Some(i) =>
      var f := FileOf(c, h[..i], h[i].key);
      if f.Some? && !Expired(c, f.value, h[i].now) then Some(Held(h[i].key, f.value.data)) else None
  }

  lemma {:induction false} HeldIsFound(c: Config, h: seq<Part>, id: nat)
    ensures Found(c, h, id) == if id in Run(c, h).pending then Some(Run(c, h).pending[id]) else None
    decreases |h|
  {
    if h != [] {
      var before, x := h[..|h| - 1], h[|h| - 1];
      HeldIsFound(c, before, id);
      if x.ReadDisk? && x.id == id {
        FilesAre(c, before, x.key);
      } else if !(x.Promote? && x.id == id) {
        FoundBefore(c, h, id);
      }
    }
  }

  lemma FoundBefore(c: Config, h: seq<Part>, id: nat)
    requires h != [] && ReadOf(h, id) == ReadOf(h[..|h| - 1], id)
    ensures Found(c, h, id) == Found(c, h[..|h| - 1], id)
  {
    var i := ReadOf(h, id);
    if i.Some? {
      assert h[..|h| - 1][..i.value] == h[..i.value];
    }
  }

  /** Each Get that stores what it found on disk does so while the same bytes are still set. */
  predicate PromotesFresh(c: Config, h: seq<Part>) {
    h != [] ==>
      && PromotesFresh(c, h[..|h| - 1])
      && (h[|h| - 1].Promote? ==> StillSet(h[..|h| - 1], Found(c, h[..|h| - 1], h[|h| - 1].id)))
  }

  predicate StillSet(h: seq<Part>, found: Option<Held>) {
    found.Some? ==> LastSet(h, found.value.key) == Some(found.value.data)
  }

  lemma {:induction false} StoredIsLastSet(c: Config, h: seq<Part>, key: Key)
    requires PromotesFresh(c, h)
    ensures InMemory(c, h, key) == LastSet(h, key)
    decreases |h|
  {
    if h != [] {
      var before, x := h[..|h| - 1], h[|h| - 1];
      StoredIsLastSet(c, before, key);
      if x.Promote? {
        HeldIsFound(c, before, x.id);
      }
    }
  }

  /**
   Exactly when interleaving does no harm: every hit in memory, at every moment of the run, is what
   was set last and not invalidated since, iff for every Get that finds a segment on disk and promotes
   it, what it found is what was set last before its promotion.
   */
  lemma {:induction false} AlwaysFreshIff(c: Config, h: seq<Part>)
    requires Positive(c)
    ensures AlwaysFresh(c, h) <==> PromotesFresh(c, h)
    decreases |h|
  {
    if h == [] {
      assert Run(c, h).cache.l1.nodes == [];
    } else {
      AlwaysFreshIff(c, h[..|h| - 1]);
      if PromotesFresh(c, h) {
        forall key, now | GetMemory(Run(c, h).cache.l1, key, now).1.Some?
          ensures GetMemory(Run(c, h).cache.l1, key, now).1 == LastSet(h, key)
        {
          HitIsLastStored(c, h, key, now);
          StoredIsLastSet(c, h, key);
        }
      }
      if AlwaysFresh(c, h) {
        FreshAfterPromotion(c, h);
      }
    }
  }

  lemma FreshAfterPromotion(c: Config, h: seq<Part>)
    requires Positive(c) && h != [] && MemoryFresh(c, h) && PromotesFresh(c, h[..|h| - 1])
    ensures PromotesFresh(c, h)
  {
    var before, x := h[..|h| - 1], h[|h| - 1];
    var s := Run(c, before);
    if x.Promote? {
      HeldIsFound(c, before, x.id);
    }
    if x.Promote? && x.id in s.pending {
      var held := s.pending[x.id];
      var m := PutMemory(c, s.cache.l1, held.key, held.data, x.now);
      assert m.nodes[0] == Node(held.key, held.data, x.now + c.ttl, true);
      assert Find(m.nodes, held.key) == 0;
      assert GetMemory(Run(c, h).cache.l1, held.key, x.now).1 == LastSet(h, held.key);
      assert LastSet(h, held.key) == LastSet(before, held.key);
    }
  }

  /** The Get that read at i stored at j, and what it read is what the disk was given last by then. */
  predicate ReadThenStored(c: Config, h: seq<Part>, i: nat, j: nat, key: Key, data: Bytes) {
    && i < j < |h|
    && h[i].ReadDisk? && h[i].key == key && h[j].Promote? && h[j].id == h[i].id
    && OnDiskLast(c, h[..i], key) == Some(data)
  }

  /** No Set or Invalidate of the key has reached memory after j. */
  predicate QuietAfter(h: seq<Part>, j: nat, key: Key) {
    forall k :: j < k < |h| ==> h[k] != DropMemory(key) && !(h[k].SetMemory? && h[k].key == key)
  }

  lemma StillReadThenStored(c: Config, h: seq<Part>, n: nat, i: nat, j: nat, key: Key, data: Bytes)
    requires n <= |h| && ReadThenStored(c, h[..n], i, j, key, data)
    ensures ReadThenStored(c, h, i, j, key, data)
  {
    assert h[..n][..i] == h[..i];
  }

  lemma StillQuiet(h: seq<Part>, n: nat, j: nat, key: Key)
    requires n == |h| - 1 && QuietAfter(h[..n], j, key)
    requires h[n] != DropMemory(key) && !(h[n].SetMemory? && h[n].key == key)
    ensures QuietAfter(h, j, key)
  {
    forall k | j < k < |h|
      ensures h[k] != DropMemory(key) && !(h[k].SetMemory? && h[k].key == key)
    {
      assert k < n ==> h[..n][k] == h[k];
    }
  }

  lemma JustPromoted(c: Config, h: seq<Part>, n: nat, key: Key)
    requires n == |h| - 1 && h[n].Promote? && h[n].id in Run(c, h[..n]).pending
    requires Run(c, h[..n]).pending[h[n].id].key == key
    ensures ReadOf(h[..n], h[n].id).Some?
    ensures ReadThenStored(c, h, ReadOf(h[..n], h[n].id).value, n, key, Run(c, h[..n]).pending[h[n].id].data)
  {
    HeldWasRead(c, h[..n], h[n].id);
    var i := ReadOf(h[..n], h[n].id).value;
    assert h[..n][..i] == h[..i];
  }

  /** Where a stale hit comes from: a promotion, of bytes that were on disk when its Get read them. */
  lemma {:induction false} StaleWasPromoted(c: Config, h: seq<Part>, key: Key, data: Bytes) returns (i: nat, j: nat)
    requires InMemory(c, h, key) == Some(data) && LastSet(h, key) != Some(data)
    ensures ReadThenStored(c, h, i, j, key, data) && QuietAfter(h, j, key)
    decreases |h|
  {
    var n := |h| - 1;
    var e := OnMemory(Run(c, h[..n]), h[n]);
    if e.Gives? && e.key == key {
      JustPromoted(c, h, n, key);
      i := ReadOf(h[..n], h[n].id).value;
      j := n;
    } else {
      i, j := StaleWasPromoted(c, h[..n], key, data);
      StillReadThenStored(c, h, n, i, j, key, data);
      StillQuiet(h, n, j, key);
    }
  }

  // ---------- Stale runs ----------

  /** After the run `h` a Get reads the segment from disk and Invalidate drops it from both tiers. */
  function ReadAndDrop(h: seq<Part>, id: nat, key: Key, now: int): seq<Part> {
    h + [ReadDisk(id, key, now)] + [DropMemory(key)] + [DropDisk(key)]
  }

  lemma OneMore(c: Config, h: seq<Part>, x: Part, key: Key)
    ensures Run(c, h + [x]) == Do(c, Run(c, h), x)
    ensures LastSet(h + [x], key) ==
      if x.SetMemory? && x.key == key then Some(x.data) else if x == DropMemory(key) then None else LastSet(h, key)
  {
    assert (h + [x])[..|h|] == h;
  }

  lemma DroppedButHeld(c: Config, h: seq<Part>, id: nat, key: Key, now: int, data: Bytes)
    requires GetDisk(c, Run(c, h).cache.l2, key, now).1 == Some(data)
    ensures var d := ReadAndDrop(h, id, key, now);
      && LastSet(d, key) == None
      && id in Run(c, d).pending && Run(c, d).pending[id] == Held(key, data)
  {
    var h1 := h + [ReadDisk(id, key, now)];
    var h2 := h1 + [DropMemory(key)];
    assert Run(c, h1).pending == Run(c, h).pending[id := Held(key, data)] by {
      OneMore(c, h, ReadDisk(id, key, now), key);
    }
    assert Run(c, h2).pending == Run(c, h1).pending && LastSet(h2, key) == None by {
      OneMore(c, h1, DropMemory(key), key);
    }
    OneMore(c, h2, DropDisk(key), key);
  }

  lemma StoredIsFound(c: Config, m: Memory, key: Key, data: Bytes, now: int)
    requires Positive(c)
    ensures GetMemory(PutMemory(c, m, key, data, now), key, now).1 == Some(data)
  {
    var m := PutMemory(c, m, key, data, now);
    assert m.nodes[0] == Node(key, data, now + c.ttl, true);
    assert Find(m.nodes, key) == 0;
  }

  /**
   Wherever a Get can find a segment on disk, an Invalidate can fall between its read and its store:
   nothing is set then, and memory serves the segment all the same.
   */
  lemma StaleAfterInvalidate(c: Config, h: seq<Part>, id: nat, key: Key, now: int, data: Bytes)
    requires Positive(c) && GetDisk(c, Run(c, h).cache.l2, key, now).1 == Some(data)
    ensures var late := ReadAndDrop(h, id, key, now) + [Promote(id, now)];
      LastSet(late, key) == None && GetMemory(Run(c, late).cache.l1, key, now).1 == Some(data)
  {
    var d := ReadAndDrop(h, id, key, now);
    DroppedButHeld(c, h, id, key, now, data);
    OneMore(c, d, Promote(id, now), key);
    StoredIsFound(c, Run(c, d).cache.l1, key, data, now);
  }

  /** Such a read happens: the segment was set, and InvalidateMedia took it from memory only. */
  lemma DiskIsRead(c: Config, mediaId: string, key: Key, data: Bytes)
    requires Positive(c) && c.l2On && HasPrefix(key, mediaId + ":")
    ensures var h := [SetMemory(key, data, 0)] + [SetDisk(key, data, 0)] + [ForgetMemory(mediaId)];
      && !GetMemory(Run(c, h).cache.l1, key, 0).1.Some?
      && GetDisk(c, Run(c, h).cache.l2, key, 0).1 == Some(data)
  {
    var h1 := [SetMemory(key, data, 0)];
    var h2 := h1 + [SetDisk(key, data, 0)];
    OneMore(c, [], SetMemory(key, data, 0), key);
    assert [] + h1 == h1;
    OneMore(c, h1, SetDisk(key, data, 0), key);
    OneMore(c, h2, ForgetMemory(mediaId), key);
    assert Run(c, h2).cache.l2.files == map[key := File(data, 0)];
    assert Find(Run(c, h2 + [ForgetMemory(mediaId)]).cache.l1.nodes, key) ==
           |Run(c, h2 + [ForgetMemory(mediaId)]).cache.l1.nodes|;
  }
}
