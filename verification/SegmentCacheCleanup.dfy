/** What the cleanup of both tiers removes: what no Get can find any more, and nothing else. */
module SegmentCacheCleanup {
  import opened Options
  import opened SegmentCacheSpec
  import opened SegmentCacheRuns

  lemma {:induction false} PurgeLeaves(nodes: seq<Node>, keys: set<Key>, now: int, n: Node)
    ensures n in Purge(nodes, keys, now) <==> n in nodes && !(n.live && n.key in keys && n.expiresAt < now)
    decreases |nodes|
  {
    if nodes != [] {
      PurgeLeaves(nodes[1..], keys, now, n);
    }
  }

  /** The map has an entry under the key with these bytes that has not expired. */
  predicate Serves(m: Memory, key: Key, data: Bytes, now: int) {
    exists n :: n in m.nodes && n.live && n.key == key && n.data == data && now <= n.expiresAt
  }

  lemma MemoryServes(m: Memory, key: Key, now: int)
    requires OneOwner(m.nodes)
    ensures match GetMemory(m, key, now).1
      case Some(data) => Serves(m, key, data, now)
      case None => forall data :: !Serves(m, key, data, now)
    ensures forall a, b :: Serves(m, key, a, now) && Serves(m, key, b, now) ==> a == b
  {
    var i := Find(m.nodes, key);
    if i < |m.nodes| {
      assert m.nodes[i] in m.nodes;
    }
  }

  lemma CleanServes(m: Memory, t: int, key: Key, data: Bytes, now: int)
    requires t <= now
    ensures Serves(CleanMemory(m, t), key, data, now) <==> Serves(m, key, data, now)
  {
    var keys := LiveKeys(m.nodes);
    if Serves(m, key, data, now) {
      var n :| n in m.nodes && n.live && n.key == key && n.data == data && now <= n.expiresAt;
      PurgeLeaves(m.nodes, keys, t, n);
    }
    if Serves(CleanMemory(m, t), key, data, now) {
      var n :| n in CleanMemory(m, t).nodes && n.live && n.key == key && n.data == data && now <= n.expiresAt;
      PurgeLeaves(m.nodes, keys, t, n);
    }
  }

  /** The cleanup changes no answer: whatever a later Get returns, it would have returned without it. */
  lemma CleanupChangesNoAnswer(c: Config, s: Cache, t: int, s': Cache, key: Key, now: int)
    requires Positive(c) && Structure(c, s.l1) && Next(c, s, Event(Cleanup, t), s') && t <= now
    ensures GetCache(c, s', key, now).1 == GetCache(c, s, key, now).1
  {
    CleanKeeps(c, s.l1, t);
    MemoryServes(s.l1, key, now);
    MemoryServes(s'.l1, key, now);
    forall data
      ensures Serves(s'.l1, key, data, now) <==> Serves(s.l1, key, data, now)
    {
      CleanServes(s.l1, t, key, data, now);
    }
  }

  /** It leaves no expired entry in the map and no expired segment on disk, and what it leaves is unchanged. */
  lemma CleanupLeavesFresh(c: Config, s: Cache, t: int, s': Cache)
    requires Next(c, s, Event(Cleanup, t), s')
    ensures forall n :: n in s'.l1.nodes && n.live ==> t <= n.expiresAt
    ensures forall n :: n in s'.l1.nodes ==> n in s.l1.nodes
    ensures c.l2On ==> forall key :: key in s'.l2.files <==> key in s.l2.files && t <= s.l2.files[key].mtime + c.ttl
    ensures forall key :: key in s'.l2.files ==> key in s.l2.files && s'.l2.files[key] == s.l2.files[key]
    ensures Drift(s'.l2) == Drift(s.l2)
  {
    forall n | n in s'.l1.nodes
      ensures n in s.l1.nodes && (n.live ==> t <= n.expiresAt)
    {
      PurgeLeaves(s.l1.nodes, LiveKeys(s.l1.nodes), t, n);
      if n.live {
        var i :| 0 <= i < |s.l1.nodes| && s.l1.nodes[i] == n;
        assert n.key in LiveKeys(s.l1.nodes);
      }
    }
  }
}
