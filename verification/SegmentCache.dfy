/**
 The segment cache as an object: a map and a recency list that share their entries, two byte
 counters, and the directory. Each method is one critical section or one exported operation, and
 is proved to do to the object what SegmentCacheSpec and SegmentCacheRuns say on values.
 */
module SegmentCache {
  import opened Options
  import opened SegmentCacheSpec
  import opened SegmentCacheRuns

  /** An entry of the map, and at the same time an element of the list. */
  class Entry {
    const key: Key
    var data: Bytes
    var size: int
    var expiresAt: int

    constructor (key: Key, data: Bytes, expiresAt: int)
      ensures this.key == key && this.data == data && this.size == |data| && this.expiresAt == expiresAt
    {
      this.key, this.data, this.size, this.expiresAt := key, data, |data|, expiresAt;
    }
  }

  /** The position of an element in the list, or the length of the list if it is not in there. */
  function IndexOf(list: seq<Entry>, e: Entry): (i: nat)
    ensures i <= |list|
    ensures i < |list| ==> list[i] == e
    ensures e in list ==> i < |list|
  {
    if list == [] || list[0] == e then 0 else 1 + IndexOf(list[1..], e)
  }

  /** What an entry is to the specification: it is live if the map holds this very entry under its key. */
  ghost predicate Shows(n: Node, e: Entry, l1: map<Key, Entry>)
    reads e
  {
    && n.key == e.key && n.data == e.data && n.expiresAt == e.expiresAt
    && n.live == (e.key in l1 && l1[e.key] == e)
    && e.size == |e.data|
  }

  class SegmentCache {
    const config: Config
    var l1: map<Key, Entry>
    var l1List: seq<Entry>
    var l1Size: int
    var l2: map<Key, File>
    var l2Size: int
    ghost var nodes: seq<Node>

    /** The list holds each entry once, and every entry of the map under its own key. */
    ghost predicate Valid()
      reads this`l1, this`l1List, this`nodes, l1List
    {
      && Distinct(l1List)
      && (forall k :: k in l1 ==> l1[k] in l1List && l1[k].key == k)
      && |nodes| == |l1List|
      && (forall i :: 0 <= i < |l1List| ==> Shows(nodes[i], l1List[i], l1))
    }

    ghost function MemoryView(): Memory
      reads this`nodes, this`l1Size
    {
      Memory(nodes, l1Size)
    }

    ghost function DiskView(): Disk
      reads this`l2, this`l2Size
    {
      Disk(l2, l2Size)
    }

    ghost function View(): Cache
      reads this
    {
      Cache(MemoryView(), DiskView())
    }

    constructor (c: Config)
      ensures config == c
      ensures Valid() && View() == EMPTY && l1List == []
    {
      config := c;
      l1, l1List, l1Size, l2, l2Size := map[], [], 0, map[], 0;
      nodes := [];
    }

    // What the map says, read off the list.

    lemma FindEntry(e: Entry)
      requires Valid() && e.key in l1 && l1[e.key] == e
      ensures Find(nodes, e.key) == IndexOf(l1List, e) < |l1List|
    {
      var i, j := Find(nodes, e.key), IndexOf(l1List, e);
      assert Owns(nodes[j], e.key);
      assert l1List[i] == e;
    }

    lemma FindNothing(key: Key)
      requires Valid() && key !in l1
      ensures Find(nodes, key) == |l1List|
    {
      var i := Find(nodes, key);
      assert i < |l1List| ==> Shows(nodes[i], l1List[i], l1);
    }

    lemma MapSize()
      requires Valid()
      ensures l1.Keys == LiveKeys(nodes) && |l1| == |LiveKeys(nodes)|
    {
      forall k | k in l1 ensures k in LiveKeys(nodes) {
        var i := IndexOf(l1List, l1[k]);
        assert Shows(nodes[i], l1List[i], l1);
      }
      forall k | k in LiveKeys(nodes) ensures k in l1 {
        var i :| 0 <= i < |nodes| && nodes[i].live && nodes[i].key == k;
        assert Shows(nodes[i], l1List[i], l1);
      }
      assert |l1| == |l1.Keys|;
    }

    lemma MapOwners()
      requires Valid()
      ensures OneOwner(nodes)
    {
      forall i, j | 0 <= i < j < |nodes| && nodes[i].live && nodes[j].live
        ensures nodes[i].key != nodes[j].key
      {
        assert Shows(nodes[i], l1List[i], l1) && Shows(nodes[j], l1List[j], l1) && l1List[i] != l1List[j];
      }
    }

    // ---------- The memory tier ----------

    method EvictL1()
      requires Valid() && l1List != []
      modifies this`l1, this`l1List, this`l1Size, this`nodes
      ensures Valid() && MemoryView() == EvictMemory(old(MemoryView()))
      ensures l1List == old(l1List)[..|old(l1List)| - 1]
      ensures forall k :: k in l1 ==> k in old(l1) && l1[k] == old(l1)[k]
    {
      var last := |l1List| - 1;
      var entry := l1List[last];
      assert Shows(nodes[last], entry, l1);
      l1Size := l1Size - entry.size;
      l1 := l1 - {entry.key};
      l1List := l1List[..last];
      nodes := EvictMemory(Memory(nodes, 0)).nodes;
      forall i | 0 <= i < |l1List| ensures Shows(nodes[i], l1List[i], l1) {
        assert Shows(old(nodes)[i], l1List[i], old(l1));
      }
    }

    /** The entry moves to the front of the list, if it still is in it. */
    method MoveEntryToFront(entry: Entry)
      requires Valid()
      modifies this`l1List, this`nodes
      ensures Valid() && nodes == MoveToFront(old(nodes), IndexOf(old(l1List), entry))
      ensures l1List == MoveToFront(old(l1List), IndexOf(old(l1List), entry))
      ensures forall e :: e in l1List <==> e in old(l1List)
    {
      var i := IndexOf(l1List, entry);
      MoveToFrontMembers(l1List, i);
      l1List := MoveToFront(l1List, i);
      nodes := MoveToFront(nodes, i);
    }

    /** The entry leaves the list and the map. */
    method Unlink(entry: Entry)
      requires Valid() && entry.key in l1 && l1[entry.key] == entry
      modifies this`l1, this`l1List, this`nodes
      ensures Valid() && nodes == RemoveAt(old(nodes), Find(old(nodes), entry.key))
      ensures l1 == old(l1) - {entry.key}
      ensures forall e :: e in l1List ==> e in old(l1List)
    {
      FindEntry(entry);
      var i := IndexOf(l1List, entry);
      forall k | k in l1 && k != entry.key ensures l1[k] in RemoveAt(l1List, i) {
        RemoveAtKeepsOthers(l1List, i, l1[k]);
      }
      assert Distinct(RemoveAt(l1List, i));
      l1List := RemoveAt(l1List, i);
      nodes := RemoveAt(nodes, i);
      l1 := l1 - {entry.key};
      forall k | 0 <= k < |l1List| ensures Shows(nodes[k], l1List[k], l1) {
        var j := Skip(i, k);
        assert l1List[k] == old(l1List)[j] && nodes[k] == old(nodes)[j];
        assert Shows(old(nodes)[j], old(l1List)[j], old(l1)) && old(l1List)[j] != old(l1List)[i];
      }
    }

    method DeleteL1(key: Key)
      requires Valid()
      modifies this`l1, this`l1List, this`l1Size, this`nodes
      ensures Valid() && MemoryView() == DeleteMemory(old(MemoryView()), key)
      ensures l1.Keys == old(l1.Keys) - {key}
      ensures forall e :: e in l1List ==> e in old(l1List)
    {
      if key in l1 {
        var entry := l1[key];
        FindEntry(entry);
        assert Shows(nodes[IndexOf(l1List, entry)], entry, l1);
        l1Size := l1Size - entry.size;
        Unlink(entry);
      } else {
        FindNothing(key);
      }
    }

    method GetL1(key: Key, now: int) returns (r: Option<Bytes>)
      requires Valid()
      modifies this`l1, this`l1List, this`l1Size, this`nodes
      ensures Valid() && (MemoryView(), r) == GetMemory(old(MemoryView()), key, now)
      ensures forall e :: e in l1List ==> e in old(l1List)
      ensures r == None ==> key !in l1
    {
      if key !in l1 {
        FindNothing(key);
        return None;
      }
      var entry := l1[key];
      FindEntry(entry);
      assert Shows(nodes[IndexOf(l1List, entry)], entry, l1);
      if now > entry.expiresAt {
        DeleteL1(key);
        return None;
      }
      MoveEntryToFront(entry);
      return Some(entry.data);
    }

    /** The loop of setL1. */
    method MakeRoomL1(need: int)
      requires Valid()
      modifies this`l1, this`l1List, this`l1Size, this`nodes
      ensures Valid() && MemoryView() == MakeRoom(config, old(MemoryView()), need)
      ensures forall e :: e in l1List ==> e in old(l1List)
      ensures forall k :: k in l1 ==> k in old(l1) && l1[k] == old(l1)[k]
    {
      MapSize();
      while (l1Size + need > config.l1MaxSize || |l1| >= config.l1MaxItems) && |l1List| > 0
        invariant Valid() && |l1| == |LiveKeys(nodes)|
        invariant MakeRoom(config, MemoryView(), need) == MakeRoom(config, old(MemoryView()), need)
        invariant forall e :: e in l1List ==> e in old(l1List)
        invariant forall k :: k in l1 ==> k in old(l1) && l1[k] == old(l1)[k]
        decreases |l1List|
      {
        EvictL1();
        MapSize();
      }
    }

    /** The fields of an entry of the map are overwritten where they are, and the counter follows. */
    method Overwrite(entry: Entry, data: Bytes, expiresAt: int)
      requires Valid() && entry.key in l1 && l1[entry.key] == entry
      modifies this`nodes, this`l1Size, entry
      ensures Valid()
      ensures var i := Find(old(nodes), entry.key);
        && i == IndexOf(l1List, entry) < |old(nodes)|
        && nodes == old(nodes)[i := Node(entry.key, data, expiresAt, true)]
        && l1Size == old(l1Size) - |old(nodes)[i].data| + |data|
    {
      FindEntry(entry);
      ghost var i := IndexOf(l1List, entry);
      assert Shows(nodes[i], entry, l1);
      l1Size := l1Size - entry.size;
      entry.data, entry.size, entry.expiresAt := data, |data|, expiresAt;
      l1Size := l1Size + |data|;
      nodes := nodes[i := Node(entry.key, data, expiresAt, true)];
      forall k | 0 <= k < |l1List| ensures Shows(nodes[k], l1List[k], l1) {
        if k != i {
          assert l1List[k] != l1List[i];
          assert old(Shows(nodes[k], l1List[k], l1));
        }
      }
    }

    /** The branch of setL1 for a key that the map holds: its entry is updated in place. */
    method Refresh(entry: Entry, data: Bytes, now: int)
      requires Valid() && entry.key in l1 && l1[entry.key] == entry
      modifies this`l1List, this`l1Size, this`nodes, entry
      ensures Valid()
      ensures Find(old(nodes), entry.key) < |old(nodes)|
      ensures MemoryView() == Refreshed(config, old(MemoryView()), entry.key, data, now)
      ensures forall e :: e in l1List <==> e in old(l1List)
    {
      ghost var i := Find(nodes, entry.key);
      Overwrite(entry, data, now + config.ttl);
      assert IndexOf(l1List, entry) == i;
      MoveEntryToFront(entry);
    }

    /** The same, as a step of the memory tier. */
    method StoreOverEntry(entry: Entry, data: Bytes, now: int)
      requires Valid() && entry.key in l1 && l1[entry.key] == entry
      modifies this`l1List, this`l1Size, this`nodes, entry
      ensures Valid() && MemoryView() == StoreMemory(config, old(MemoryView()), entry.key, data, now)
      ensures forall e :: e in l1List <==> e in old(l1List)
    {
      ghost var before := MemoryView();
      Refresh(entry, data, now);
      StoreOver(config, before, entry.key, data, now);
    }

    /** A new entry enters the map and the front of the list. */
    method Link(entry: Entry)
      requires Valid() && entry.key !in l1 && entry !in l1List && entry.size == |entry.data|
      modifies this`l1, this`l1List, this`nodes
      ensures Valid() && l1List == [entry] + old(l1List)
      ensures nodes == [Node(entry.key, entry.data, entry.expiresAt, true)] + old(nodes)
    {
      l1List := [entry] + l1List;
      l1 := l1[entry.key := entry];
      nodes := [Node(entry.key, entry.data, entry.expiresAt, true)] + nodes;
      forall k | 0 < k < |l1List| ensures Shows(nodes[k], l1List[k], l1) {
        assert Shows(old(nodes)[k - 1], old(l1List)[k - 1], old(l1));
      }
      assert l1List[0] == entry;
      forall k | k in l1 ensures l1[k] in l1List {
        if k != entry.key { assert old(l1)[k] in old(l1List); }
      }
    }

    /** The branch of setL1 for a key that the map does not hold. */
    method Insert(key: Key, data: Bytes, now: int)
      requires Valid() && key !in l1
      modifies this`l1, this`l1List, this`l1Size, this`nodes
      ensures Valid()
      ensures MemoryView() == StoreMemory(config, old(MemoryView()), key, data, now)
      ensures forall e :: e in l1List ==> e in old(l1List) || fresh(e)
    {
      assert StoreMemory(config, MemoryView(), key, data, now) ==
             Memory([Node(key, data, now + config.ttl, true)] + nodes, l1Size + |data|) by {
        FindNothing(key);
        StoreNew(config, MemoryView(), key, data, now);
      }
      var entry := new Entry(key, data, now + config.ttl);
      Link(entry);
      l1Size := l1Size + |data|;
    }

    /** The rest of setL1, once there is room. */
    method StoreL1(key: Key, data: Bytes, now: int)
      requires Valid()
      modifies this`l1, this`l1List, this`l1Size, this`nodes, if key in l1 then {l1[key]} else {}
      ensures Valid() && MemoryView() == StoreMemory(config, old(MemoryView()), key, data, now)
      ensures forall e :: e in l1List ==> e in old(l1List) || fresh(e)
    {
      if key in l1 {
        StoreOverEntry(l1[key], data, now);
      } else {
        Insert(key, data, now);
      }
    }

    method SetL1(key: Key, data: Bytes, now: int)
      requires Valid()
      modifies this`l1, this`l1List, this`l1Size, this`nodes, if key in l1 then {l1[key]} else {}
      ensures Valid() && MemoryView() == PutMemory(config, old(MemoryView()), key, data, now)
      ensures forall e :: e in l1List ==> e in old(l1List) || fresh(e)
    {
      MakeRoomL1(|data|);
      StoreL1(key, data, now);
    }

    /** The loop of InvalidateMedia: the map loses the keys with the item's prefix. */
    method DropPrefixed(prefix: string)
      modifies this`l1
      ensures forall k :: k in l1 <==> k in old(l1) && !HasPrefix(k, prefix)
      ensures forall k :: k in l1 ==> l1[k] == old(l1)[k]
    {
      var todo := l1.Keys;
      while todo != {}
        invariant todo <= old(l1.Keys)
        invariant forall k :: k in l1 <==> k in old(l1) && (k in todo || !HasPrefix(k, prefix))
        invariant forall k :: k in l1 ==> l1[k] == old(l1)[k]
        decreases |todo|
      {
        var key :| key in todo;
        if HasPrefix(key, prefix) {
          l1 := l1 - {key};
        }
        todo := todo - {key};
      }
    }

    method InvalidateMedia(mediaId: string)
      requires Valid()
      modifies this`l1, this`nodes
      ensures Valid() && View() == old(View()).(l1 := ForgetMedia(old(MemoryView()), mediaId))
    {
      DropPrefixed(mediaId + ":");
      nodes := ForgetMedia(MemoryView(), mediaId).nodes;
      forall i | 0 <= i < |l1List| ensures Shows(nodes[i], l1List[i], l1) {
        assert Shows(old(nodes)[i], l1List[i], old(l1));
      }
    }

    /** One round of the loop of cleanupExpired over the map. */
    method CleanupKey(key: Key, now: int)
      requires Valid() && key in l1
      modifies this`l1, this`l1List, this`l1Size, this`nodes
      ensures Valid() && nodes == Purge(old(nodes), {key}, now)
      ensures l1Size - Sum(nodes) == old(l1Size) - Sum(old(nodes))
      ensures old(l1.Keys) - {key} <= l1.Keys
    {
      var entry := l1[key];
      FindEntry(entry);
      MapOwners();
      PurgeOne(nodes, key, now);
      SumRemoveAt(nodes, Find(nodes, key));
      assert Shows(nodes[IndexOf(l1List, entry)], entry, l1);
      if now > entry.expiresAt {
        l1Size := l1Size - entry.size;
        Unlink(entry);
      }
    }

    /** The memory half of cleanupExpired. */
    method CleanupL1(now: int)
      requires Valid()
      modifies this`l1, this`l1List, this`l1Size, this`nodes
      ensures Valid() && MemoryView() == CleanMemory(old(MemoryView()), now)
    {
      var todo := l1.Keys;
      MapSize();
      ghost var keys := l1.Keys;
      PurgeStart(nodes, keys, now);
      while todo != {}
        invariant Valid() && todo <= l1.Keys && todo <= keys
        invariant nodes == PurgeUpTo(old(nodes), keys, todo, now)
        invariant l1Size - Sum(nodes) == old(l1Size) - Sum(old(nodes))
        decreases |todo|
      {
        var key :| key in todo;
        PurgeStep(old(nodes), keys, todo, key, now);
        CleanupKey(key, now);
        todo := todo - {key};
      }
      assert keys - todo == keys;
    }

    // ---------- The disk tier ----------

    method GetL2(key: Key, now: int) returns (r: Option<Bytes>)
      modifies this`l2
      ensures (DiskView(), r) == GetDisk(config, old(DiskView()), key, now)
    {
      if !config.l2On || key !in l2 {
        return None;
      }
      var file := l2[key];
      if now > file.mtime + config.ttl {
        l2 := l2 - {key};
        return None;
      }
      return Some(file.data);
    }

    /** evictL2: the scan of the directory for the .meta file with the earliest modification time. */
    method EvictL2() returns (evicted: bool)
      modifies this`l2, this`l2Size
      ensures evicted == (config.l2On && old(l2) != map[])
      ensures if evicted then exists key :: IsOldest(old(l2), key) && DiskView() == EvictDisk(old(DiskView()), key)
              else DiskView() == old(DiskView())
    {
      if !config.l2On {
        return false;
      }
      var oldest: Option<Key> := None;
      var entries := l2.Keys;
      while entries != {}
        invariant entries <= l2.Keys
        invariant oldest == None ==> entries == l2.Keys
        invariant oldest.Some? ==> oldest.value in l2
        invariant oldest.Some? ==> forall k :: k in l2 && k !in entries ==> l2[oldest.value].mtime <= l2[k].mtime
        decreases |entries|
      {
        var entry :| entry in entries;
        if oldest == None || l2[entry].mtime < l2[oldest.value].mtime {
          oldest := Some(entry);
        }
        entries := entries - {entry};
      }
      match oldest
      case None =>
        assert l2 == map[];
        return false;
      case Some(key) =>
        assert IsOldest(l2, key);
        l2Size := l2Size - |l2[key].data|;
        l2 := l2 - {key};
        return true;
    }

    method SetL2(key: Key, data: Bytes, now: int)
      modifies this`l2, this`l2Size
      ensures PutDisk(config, old(DiskView()), DiskView(), key, data, now)
    {
      if !config.l2On {
        return;
      }
      while l2Size + |data| > config.l2MaxSize
        invariant forall e :: Evicts(config, DiskView(), e, |data|) ==> Evicts(config, old(DiskView()), e, |data|)
        decreases |l2|
      {
        var evicted := EvictL2();
        if !evicted {
          break;
        }
      }
      assert Evicts(config, DiskView(), DiskView(), |data|);
      l2 := l2[key := File(data, now)];
      l2Size := l2Size + |data|;
    }

    method DeleteL2(key: Key)
      modifies this`l2, this`l2Size
      ensures DiskView() == DeleteDisk(config, old(DiskView()), key)
    {
      if !config.l2On {
        return;
      }
      if key in l2 {
        l2Size := l2Size - |l2[key].data|;
        l2 := l2 - {key};
      }
    }

    /** The disk half of cleanupExpired. */
    method CleanupL2(now: int)
      modifies this`l2, this`l2Size
      ensures DiskView() == CleanDisk(config, old(DiskView()), now)
    {
      if !config.l2On {
        return;
      }
      var entries := l2.Keys;
      while entries != {}
        invariant entries <= l2.Keys
        invariant l2 == map k | k in old(l2) && (k in entries || !Expired(config, old(l2)[k], now)) :: old(l2)[k]
        invariant Drift(DiskView()) == old(Drift(DiskView()))
        decreases |entries|
      {
        var entry :| entry in entries;
        if l2[entry].mtime + config.ttl < now {
          TotalWithout(l2, entry);
          l2Size := l2Size - |l2[entry].data|;
          l2 := l2 - {entry};
        }
        entries := entries - {entry};
      }
    }

    // ---------- The exported operations ----------

    method Get(key: Key, now: int) returns (r: Option<Bytes>)
      requires Valid()
      modifies this
      ensures Valid() && (View(), r) == GetCache(config, old(View()), key, now)
      ensures forall e :: e in l1List ==> e in old(l1List) || fresh(e)
    {
      r := GetL1(key, now);
      if r.Some? {
        return;
      }
      r := GetL2(key, now);
      if r.Some? {
        SetL1(key, r.value, now);
      }
    }

    method Set(key: Key, data: Bytes, now: int)
      requires Valid()
      modifies this, if key in l1 then {l1[key]} else {}
      ensures Valid() && Next(config, old(View()), Event(Op.Set(key, data), now), View())
      ensures forall e :: e in l1List ==> e in old(l1List) || fresh(e)
    {
      SetL1(key, data, now);
      if config.l2On {
        SetL2(key, data, now);
      }
    }

    method Invalidate(key: Key)
      requires Valid()
      modifies this
      ensures Valid() && forall now :: Next(config, old(View()), Event(Op.Invalidate(key), now), View())
    {
      DeleteL1(key);
      DeleteL2(key);
    }

    method CleanupExpired(now: int)
      requires Valid()
      modifies this
      ensures Valid() && Next(config, old(View()), Event(Op.Cleanup, now), View())
    {
      CleanupL1(now);
      CleanupL2(now);
    }
  }
}
