/** What the recency list is for. */
module SegmentCacheRecency {
  // An entry of the memory tier that was just used stays there while the bytes and entries used after it
  // fit the limits next to it. InvalidateMedia breaks this for the keys it matches, because the node it
  // leaves behind takes a newer entry of the same key with it when it is evicted.

  import opened Options
  import opened SegmentCacheSpec
  import opened SegmentCacheSections

  /** The map holds `key`, its node is at position p, and no other node carries the key. */
  predicate Holds(nodes: seq<Node>, key: Key, p: nat) {
    && p < |nodes|
    && Owns(nodes[p], key)
    && forall j :: 0 <= j < |nodes| && j != p ==> nodes[j].key != key
  }

  /** The bytes that a critical section moves to the front of the list. */
  function Used(m: Memory, x: Section): int {
    match x
    case Touch(at) => SizeAt(m.nodes, at)
    case Put(_, data, _) => |data|
    case _ => 0
  }

  /** The section is about other keys, and does not find the entry expired. */
  predicate LeavesAlone(x: Section, key: Key, expiresAt: int) {
    match x
    case Touch(_) => true
    case Put(k, _, _) => k != key
    case Delete(k) => k != key
    case Forget(mediaId) => !HasPrefix(key, mediaId + ":")
    case Clean(now) => now <= expiresAt
  }

  /** The bytes used by the sections `xs`, entered one after the other from m on. */
  function UsedBy(c: Config, m: Memory, xs: seq<Section>): int
    decreases |xs|
  {
    if xs == [] then 0 else Used(m, xs[0]) + UsedBy(c, Enter(c, m, xs[0]), xs[1..])
  }

  function EnterAll(c: Config, m: Memory, xs: seq<Section>): Memory
    decreases |xs|
  {
    if xs == [] then m else EnterAll(c, Enter(c, m, xs[0]), xs[1..])
  }

  lemma SumPrefix(nodes: seq<Node>, p: nat, q: nat)
    requires p <= q <= |nodes|
    ensures 0 <= Sum(nodes[..p]) <= Sum(nodes[..q])
  {
    assert nodes[..q] == nodes[..p] + nodes[p..q];
    SumAppend(nodes[..p], nodes[p..q]);
    SumIsNat(nodes[..p]);
    SumIsNat(nodes[p..q]);
  }

  lemma SumUpTo(nodes: seq<Node>, p: nat)
    requires p < |nodes|
    ensures Sum(nodes[..p + 1]) == Sum(nodes[..p]) + |nodes[p].data|
  {
    assert nodes[..p + 1] == nodes[..p] + [nodes[p]];
    SumAppend(nodes[..p], [nodes[p]]);
  }

  lemma {:induction false} LiveKeysBound(nodes: seq<Node>)
    ensures |LiveKeys(nodes)| <= |nodes|
    decreases |nodes|
  {
    if nodes != [] {
      LiveKeysBound(nodes[1..]);
      assert nodes == [nodes[0]] + nodes[1..];
      LiveKeysOfCons(nodes[0], nodes[1..]);
      CardinalitySubset(LiveKeys(nodes), LiveKeys(nodes[1..]) + {nodes[0].key});
    }
  }

  /** Making room stops before it reaches the entry. */
  lemma {:induction false} MakeRoomSpares(c: Config, m: Memory, need: int, key: Key, p: nat)
    requires m.size == Sum(m.nodes) && OneOwner(m.nodes) && Holds(m.nodes, key, p)
    requires Sum(m.nodes[..p + 1]) + need <= c.l1MaxSize && p + 1 < c.l1MaxItems
    ensures var r := MakeRoom(c, m, need).nodes;
      Holds(r, key, p) && r[p] == m.nodes[p] && Sum(r[..p]) == Sum(m.nodes[..p])
    decreases |m.nodes|
  {
    if MustEvict(c, m, need) {
      if p + 1 == |m.nodes| {
        assert m.nodes[..p + 1] == m.nodes;
        LiveKeysBound(m.nodes);
        assert false;
      }
      EvictKeeps(m);
      var e := EvictMemory(m);
      SumOfData(e.nodes[..p], m.nodes[..p]);
      SumOfData(e.nodes[..p + 1], m.nodes[..p + 1]);
      MakeRoomSpares(c, e, need, key, p);
    }
  }

  /** Taking out another node moves the entry forward by at most that node. */
  lemma RemoveSpares(nodes: seq<Node>, i: nat, key: Key, p: nat) returns (q: nat)
    requires Holds(nodes, key, p) && i != p
    ensures q <= p && Holds(RemoveAt(nodes, i), key, q)
    ensures RemoveAt(nodes, i)[q] == nodes[p]
    ensures i < p ==> q == p - 1 && Sum(RemoveAt(nodes, i)[..q]) == Sum(nodes[..p]) - SizeAt(nodes, i)
    ensures p < i ==> q == p && Sum(RemoveAt(nodes, i)[..q]) == Sum(nodes[..p])
  {
    var r := RemoveAt(nodes, i);
    if i < p {
      q := p - 1;
      assert r[..q] == RemoveAt(nodes[..p], i);
      SumRemoveAt(nodes[..p], i);
    } else {
      q := p;
      assert r[..q] == nodes[..p];
    }
    if i < |nodes| {
      forall j | 0 <= j < |r| && j != q
        ensures r[j].key != key
      {
        assert r[j] == nodes[Skip(i, j)];
      }
    }
  }

  /** A node pushed on the front moves the entry back by that node. */
  lemma PushSpares(n: Node, rest: seq<Node>, key: Key, q: nat)
    requires Holds(rest, key, q) && n.key != key
    ensures Holds([n] + rest, key, q + 1)
    ensures ([n] + rest)[q + 1] == rest[q]
    ensures Sum(([n] + rest)[..q + 1]) == |n.data| + Sum(rest[..q])
  {
    assert ([n] + rest)[..q + 1] == [n] + rest[..q];
    SumAppend([n], rest[..q]);
  }

  lemma {:induction false} PurgeSpares(nodes: seq<Node>, keys: set<Key>, now: int, key: Key, p: nat) returns (q: nat)
    requires Holds(nodes, key, p) && now <= nodes[p].expiresAt
    ensures q <= p && Holds(Purge(nodes, keys, now), key, q)
    ensures Purge(nodes, keys, now)[q] == nodes[p]
    ensures Sum(Purge(nodes, keys, now)[..q]) <= Sum(nodes[..p])
    decreases |nodes|
  {
    var r := Purge(nodes[1..], keys, now);
    if p == 0 {
      q := 0;
      forall n | n in r
        ensures n.key != key
      {
        PurgeMembers(nodes[1..], keys, now, n);
      }
    } else {
      q := PurgeSpares(nodes[1..], keys, now, key, p - 1);
      assert nodes[..p] == [nodes[0]] + nodes[1..][..p - 1];
      SumAppend([nodes[0]], nodes[1..][..p - 1]);
      if !Stale(nodes[0], keys, now) {
        PushSpares(nodes[0], r, key, q);
        q := q + 1;
      }
    }
  }

  lemma {:induction false} PurgeMembers(nodes: seq<Node>, keys: set<Key>, now: int, n: Node)
    requires n in Purge(nodes, keys, now)
    ensures n in nodes
    decreases |nodes|
  {
    if n != nodes[0] || Stale(nodes[0], keys, now) {
      PurgeMembers(nodes[1..], keys, now, n);
    }
  }

  /** One section about other keys: the entry stays, and what is ahead of it grows by what was used. */
  lemma SectionSpares(c: Config, m: Memory, x: Section, key: Key, p: nat) returns (q: nat)
    requires Positive(c) && Structure(c, m) && Holds(m.nodes, key, p)
    requires LeavesAlone(x, key, m.nodes[p].expiresAt)
    requires Sum(m.nodes[..p]) + |m.nodes[p].data| + Used(m, x) <= c.l1MaxSize && p + 1 < c.l1MaxItems
    ensures q <= p + 1 && Holds(Enter(c, m, x).nodes, key, q)
    ensures Enter(c, m, x).nodes[q].data == m.nodes[p].data
    ensures Enter(c, m, x).nodes[q].expiresAt == m.nodes[p].expiresAt
    ensures Sum(Enter(c, m, x).nodes[..q]) <= Sum(m.nodes[..p]) + Used(m, x)
  {
    SumPrefix(m.nodes, 0, p);
    match x {
      case Touch(at) =>
        q := TouchSpares(m.nodes, at, key, p);
      case Put(k, data, now) =>
        q := PutSpares(c, m, k, data, now, key, p);
      case Delete(k) =>
        q := DeleteSpares(m, k, key, p);
      case Forget(mediaId) =>
        q := p;
        SumOfData(ForgetMedia(m, mediaId).nodes[..p], m.nodes[..p]);
      case Clean(now) =>
        q := PurgeSpares(m.nodes, LiveKeys(m.nodes), now, key, p);
    }
  }

  lemma PutSpares(c: Config, m: Memory, k: Key, data: Bytes, now: int, key: Key, p: nat) returns (q: nat)
    requires m.size == Sum(m.nodes) && OneOwner(m.nodes) && Holds(m.nodes, key, p) && k != key
    requires Sum(m.nodes[..p]) + |m.nodes[p].data| + |data| <= c.l1MaxSize && p + 1 < c.l1MaxItems
    ensures q <= p + 1 && Holds(PutMemory(c, m, k, data, now).nodes, key, q)
    ensures PutMemory(c, m, k, data, now).nodes[q] == m.nodes[p]
    ensures Sum(PutMemory(c, m, k, data, now).nodes[..q]) <= Sum(m.nodes[..p]) + |data|
  {
    SumUpTo(m.nodes, p);
    MakeRoomSpares(c, m, |data|, key, p);
    var room := MakeRoom(c, m, |data|);
    q := DeleteSpares(room, k, key, p);
    PushSpares(Node(k, data, now + c.ttl, true), DeleteMemory(room, k).nodes, key, q);
    q := q + 1;
  }

  lemma TouchSpares(nodes: seq<Node>, at: nat, key: Key, p: nat) returns (q: nat)
    requires Holds(nodes, key, p) && 0 <= Sum(nodes[..p])
    ensures q <= p + 1 && Holds(MoveToFront(nodes, at), key, q)
    ensures MoveToFront(nodes, at)[q] == nodes[p]
    ensures Sum(MoveToFront(nodes, at)[..q]) <= Sum(nodes[..p]) + SizeAt(nodes, at)
  {
    if at >= |nodes| {
      q := p;
    } else if at == p {
      q := 0;
      assert MoveToFront(nodes, at)[..0] == [];
    } else {
      var rest := RemoveAt(nodes, at);
      assert MoveToFront(nodes, at) == [nodes[at]] + rest by { MoveToFrontIsPush(nodes, at); }
      q := RemoveSpares(nodes, at, key, p);
      PushSpares(nodes[at], rest, key, q);
      q := q + 1;
    }
  }

  lemma DeleteSpares(m: Memory, k: Key, key: Key, p: nat) returns (q: nat)
    requires Holds(m.nodes, key, p) && k != key
    ensures q <= p && Holds(DeleteMemory(m, k).nodes, key, q)
    ensures DeleteMemory(m, k).nodes[q] == m.nodes[p]
    ensures Sum(DeleteMemory(m, k).nodes[..q]) <= Sum(m.nodes[..p])
  {
    q := RemoveSpares(m.nodes, Find(m.nodes, k), key, p);
  }

  /**
   The promise of the memory tier: an entry at position p of the list is still there, with the same
   data, after any critical sections about other keys, as long as what they use, what was used
   after the entry before, and the entry itself fit both limits together.
   */
  lemma {:induction false} RecentlyUsedKept(c: Config, m: Memory, xs: seq<Section>, key: Key, p: nat) returns (q: nat)
    requires Positive(c) && Structure(c, m) && Holds(m.nodes, key, p)
    requires forall i :: 0 <= i < |xs| ==> LeavesAlone(xs[i], key, m.nodes[p].expiresAt)
    requires Sum(m.nodes[..p]) + |m.nodes[p].data| + UsedBy(c, m, xs) <= c.l1MaxSize
    requires p + |xs| < c.l1MaxItems
    ensures Holds(EnterAll(c, m, xs).nodes, key, q)
    ensures EnterAll(c, m, xs).nodes[q].data == m.nodes[p].data
    ensures EnterAll(c, m, xs).nodes[q].expiresAt == m.nodes[p].expiresAt
    decreases |xs|
  {
    q := p;
    if xs != [] {
      UsedIsNat(c, Enter(c, m, xs[0]), xs[1..]);
      q := SectionSpares(c, m, xs[0], key, p);
      EnterKeeps(c, m, xs[0]);
      q := RecentlyUsedKept(c, Enter(c, m, xs[0]), xs[1..], key, q);
    }
  }

  lemma {:induction false} UsedIsNat(c: Config, m: Memory, xs: seq<Section>)
    ensures 0 <= UsedBy(c, m, xs)
    decreases |xs|
  {
    if xs != [] {
      UsedIsNat(c, Enter(c, m, xs[0]), xs[1..]);
    }
  }

  /** InvalidateMedia has left no node of the key in the list. */
  predicate NoLeftover(nodes: seq<Node>, key: Key) {
    forall i :: 0 <= i < |nodes| && nodes[i].key == key ==> nodes[i].live
  }

  lemma {:induction false} MakeRoomNoLeftover(c: Config, m: Memory, need: int, key: Key)
    requires OneOwner(m.nodes) && NoLeftover(m.nodes, key)
    ensures OneOwner(MakeRoom(c, m, need).nodes) && NoLeftover(MakeRoom(c, m, need).nodes, key)
    decreases |m.nodes|
  {
    if MustEvict(c, m, need) {
      MakeRoomNoLeftover(c, EvictMemory(m), need, key);
    }
  }

  /** An entry just stored is the only node of its key. */
  lemma PutHolds(c: Config, m: Memory, key: Key, data: Bytes, at: int)
    requires OneOwner(m.nodes) && NoLeftover(m.nodes, key)
    ensures Holds(PutMemory(c, m, key, data, at).nodes, key, 0)
  {
    var r := MakeRoom(c, m, |data|).nodes;
    MakeRoomNoLeftover(c, m, |data|, key);
    var i := Find(r, key);
    forall j | 0 <= j < |RemoveAt(r, i)|
      ensures RemoveAt(r, i)[j].key != key
    {
      assert RemoveAt(r, i)[j] == r[Skip(i, j)];
    }
  }

  /** So a lookup of an entry just stored still hits after other entries that fit next to it were used. */
  lemma HitAfterOthers(c: Config, m: Memory, key: Key, data: Bytes, at: int, xs: seq<Section>, now: int)
    requires Positive(c) && Structure(c, m) && NoLeftover(m.nodes, key)
    requires forall i :: 0 <= i < |xs| ==> LeavesAlone(xs[i], key, at + c.ttl)
    requires |data| + UsedBy(c, PutMemory(c, m, key, data, at), xs) <= c.l1MaxSize && |xs| < c.l1MaxItems
    requires now <= at + c.ttl
    ensures GetMemory(EnterAll(c, PutMemory(c, m, key, data, at), xs), key, now).1 == Some(data)
  {
    var s := PutMemory(c, m, key, data, at);
    PutHolds(c, m, key, data, at);
    PutKeeps(c, m, key, data, at);
    assert s.nodes[0] == Node(key, data, at + c.ttl, true);
    assert s.nodes[..0] == [];
    var q := RecentlyUsedKept(c, s, xs, key, 0);
    assert Find(EnterAll(c, s, xs).nodes, key) == q;
  }

  /**
   What InvalidateMedia does to the promise. A segment of the item is stored, invalidated, stored
   again, and then one other segment is stored. All of it fits, yet the segment is gone: making
   room evicts the node left behind, and with it the newer entry.
   */
  lemma LeftoverTakesNewerEntry(c: Config, key: Key, mediaId: string, other: Key, data: Bytes)
    requires Positive(c) && HasPrefix(key, mediaId + ":") && !HasPrefix(other, mediaId + ":")
    requires c.l1MaxItems > 2 && 0 < |data| && 2 * |data| <= c.l1MaxSize < 3 * |data|
    ensures var xs := [Put(key, data, 0), Forget(mediaId), Put(key, data, 0)];
      var m := EnterAll(c, EMPTY.l1, xs);
      && GetMemory(m, key, 0).1 == Some(data)
      && m.nodes[0].key == key && |data| + UsedBy(c, m, [Put(other, data, 0)]) <= c.l1MaxSize
      && GetMemory(EnterAll(c, m, [Put(other, data, 0)]), key, 0).1 == None
  {
    var live, dead := Node(key, data, c.ttl, true), Node(key, data, c.ttl, false);
    var m3 := Memory([live, dead], 2 * |data|);
    StoredOverLeftover(c, key, mediaId, data);
    var m4 := EvictMemory(m3);
    assert m4.nodes == [dead];
    assert LiveKeys(m4.nodes) == {};
    assert MakeRoom(c, m3, |data|) == m4;
    var m5 := PutMemory(c, m3, other, data, 0);
    assert m5.nodes == [Node(other, data, c.ttl, true), dead];
    assert Find(m3.nodes, key) == 0;
    assert Find(m5.nodes, key) == 2;
    assert EnterAll(c, m3, [Put(other, data, 0)]) == m5;
  }

  lemma StoredOverLeftover(c: Config, key: Key, mediaId: string, data: Bytes)
    requires Positive(c) && HasPrefix(key, mediaId + ":")
    requires c.l1MaxItems > 2 && 0 < |data| && 2 * |data| <= c.l1MaxSize
    ensures EnterAll(c, EMPTY.l1, [Put(key, data, 0), Forget(mediaId), Put(key, data, 0)]) ==
            Memory([Node(key, data, c.ttl, true), Node(key, data, c.ttl, false)], 2 * |data|)
  {
    var live, dead := Node(key, data, c.ttl, true), Node(key, data, c.ttl, false);
    var m1 := PutMemory(c, EMPTY.l1, key, data, 0);
    assert m1 == Memory([live], |data|);
    var m2 := ForgetMedia(m1, mediaId);
    assert m2 == Memory([dead], |data|);
    assert LiveKeys(m2.nodes) == {};
    var m3 := PutMemory(c, m2, key, data, 0);
    assert MakeRoom(c, m2, |data|) == m2;
    assert m3 == Memory([live, dead], 2 * |data|);
    var xs := [Put(key, data, 0), Forget(mediaId), Put(key, data, 0)];
    assert EnterAll(c, m2, [Put(key, data, 0)]) == m3;
    assert xs[1..] == [Forget(mediaId), Put(key, data, 0)] && xs[1..][1..] == [Put(key, data, 0)];
  }

  lemma {:induction false} MakeRoomMaps(c: Config, m: Memory, need: int)
    requires m.size == Sum(m.nodes) && OneOwner(m.nodes)
    ensures LiveKeys(MakeRoom(c, m, need).nodes) <= LiveKeys(m.nodes)
    decreases |m.nodes|
  {
    if MustEvict(c, m, need) {
      EvictKeeps(m);
      MakeRoomMaps(c, EvictMemory(m), need);
    }
  }

  predicate NoneBehind(nodes: seq<Node>, j: nat, keys: set<Key>) {
    forall i :: j < i < |nodes| ==> nodes[i].key !in keys
  }

  /** The map is full, and no node behind position j would take an entry with it when it is evicted. */
  predicate ReachedByCount(c: Config, nodes: seq<Node>, j: nat) {
    |LiveKeys(nodes)| >= c.l1MaxItems && NoneBehind(nodes, j, LiveKeys(nodes))
  }

  /** The bytes up to position j do not fit next to `need`. */
  predicate ReachedByBytes(c: Config, nodes: seq<Node>, need: int, j: nat) {
    j < |nodes| && Sum(nodes[..j + 1]) + need > c.l1MaxSize
  }

  /** Evicting one node at a time from the back to make room for `need` reaches position j. */
  predicate Reached(c: Config, m: Memory, need: int, j: nat) {
    j < |m.nodes| && (ReachedByBytes(c, m.nodes, need, j) || ReachedByCount(c, m.nodes, j))
  }

  /** What one eviction does to the keys of the map. */
  lemma EvictedKeys(m: Memory)
    requires m.nodes != [] && OneOwner(m.nodes)
    ensures LiveKeys(EvictMemory(m).nodes) == LiveKeys(m.nodes) - {m.nodes[|m.nodes| - 1].key}
  {
    var last := |m.nodes| - 1;
    var e := EvictMemory(m).nodes;
    assert forall i :: 0 <= i < last ==> e[i].key == m.nodes[i].key;
    forall k | k in LiveKeys(m.nodes) && k != m.nodes[last].key
      ensures k in LiveKeys(e)
    {
      var i :| 0 <= i < |m.nodes| && m.nodes[i].live && m.nodes[i].key == k;
      assert e[i].live;
    }
  }

  /** Making room takes the entry of every node that is reached. */
  lemma {:induction false} MakeRoomTakes(c: Config, m: Memory, need: int, j: nat)
    requires m.size == Sum(m.nodes) && OneOwner(m.nodes) && Reached(c, m, need, j)
    ensures m.nodes[j].key !in LiveKeys(MakeRoom(c, m, need).nodes)
    decreases |m.nodes|
  {
    var last := |m.nodes| - 1;
    assert MustEvict(c, m, need) by {
      SumPrefix(m.nodes, j + 1, |m.nodes|);
      assert m.nodes[..|m.nodes|] == m.nodes;
    }
    var e := EvictMemory(m);
    assert e.size == Sum(e.nodes) && OneOwner(e.nodes) by { EvictKeeps(m); }
    if j == last {
      EvictedKeys(m);
      MakeRoomMaps(c, e, need);
    } else {
      SameBytesReached(c, m, need, j);
      if ReachedByCount(c, m.nodes, j) {
        CountReachedLater(c, m, j);
      }
      MakeRoomTakes(c, e, need, j);
    }
  }

  /** Making room leaves the front entry alone if no node of its key is reached. */
  lemma {:induction false} MakeRoomLeavesFront(c: Config, m: Memory, need: int)
    requires m.size == Sum(m.nodes) && OneOwner(m.nodes) && |LiveKeys(m.nodes)| <= c.l1MaxItems
    requires m.nodes != [] && m.nodes[0].live
    requires forall j :: 0 <= j < |m.nodes| && m.nodes[j].key == m.nodes[0].key ==> !Reached(c, m, need, j)
    ensures var r := MakeRoom(c, m, need).nodes; r != [] && r[0] == m.nodes[0]
    decreases |m.nodes|
  {
    if MustEvict(c, m, need) {
      var last := |m.nodes| - 1;
      assert m.nodes[..last + 1] == m.nodes;
      assert m.nodes[last].key != m.nodes[0].key by {
        assert Reached(c, m, need, last);
      }
      var e := EvictMemory(m);
      EvictKeeps(m);
      EvictedKeys(m);
      forall j | 0 <= j < |e.nodes| && e.nodes[j].key == e.nodes[0].key
        ensures !Reached(c, e, need, j)
      {
        assert !Reached(c, m, need, j);
        SameBytesReached(c, m, need, j);
        CountNotReachedLater(c, m, j);
      }
      MakeRoomLeavesFront(c, e, need);
    }
  }

  lemma CountNotReachedLater(c: Config, m: Memory, j: nat)
    requires OneOwner(m.nodes) && |LiveKeys(m.nodes)| <= c.l1MaxItems && j < |m.nodes|
    requires !ReachedByCount(c, m.nodes, j)
    ensures !ReachedByCount(c, EvictMemory(m).nodes, j)
  {
    var keys, gone := LiveKeys(m.nodes), m.nodes[|m.nodes| - 1].key;
    var left := LiveKeys(EvictMemory(m).nodes);
    assert left == keys - {gone} by { EvictedKeys(m); }
    if gone !in keys {
      assert left == keys;
      NoneBehindOneMore(m, j, keys);
    }
  }

  lemma CountReachedLater(c: Config, m: Memory, j: nat)
    requires OneOwner(m.nodes) && j < |m.nodes| - 1 && ReachedByCount(c, m.nodes, j)
    ensures ReachedByCount(c, EvictMemory(m).nodes, j)
  {
    var keys, last := LiveKeys(m.nodes), |m.nodes| - 1;
    assert m.nodes[last].key !in keys;
    assert LiveKeys(EvictMemory(m).nodes) == keys by { EvictedKeys(m); }
    assert forall i :: 0 <= i < last ==> EvictMemory(m).nodes[i].key == m.nodes[i].key;
  }

  lemma SameBytesReached(c: Config, m: Memory, need: int, j: nat)
    requires j < |m.nodes| - 1
    ensures ReachedByBytes(c, EvictMemory(m).nodes, need, j) <==> ReachedByBytes(c, m.nodes, need, j)
  {
    SumOfData(EvictMemory(m).nodes[..j + 1], m.nodes[..j + 1]);
  }

  lemma NoneBehindOneMore(m: Memory, j: nat, keys: set<Key>)
    requires m.nodes != [] && m.nodes[|m.nodes| - 1].key !in keys
    ensures NoneBehind(EvictMemory(m).nodes, j, keys) ==> NoneBehind(m.nodes, j, keys)
  {
    var last := |m.nodes| - 1;
    assert forall i :: 0 <= i < last ==> EvictMemory(m).nodes[i].key == m.nodes[i].key;
  }

  /** Whatever one other entry that fits next to `data` is stored, a lookup of `key` still finds `data`. */
  ghost predicate KeptNextToAny(c: Config, s: Memory, key: Key, data: Bytes, at: int) {
    forall other, d :: other != key && |data| + |d| <= c.l1MaxSize ==>
      GetMemory(PutMemory(c, s, other, d, at), key, at).1 == Some(data)
  }

  /** A node of the key is reached when as many bytes as fit next to `data` are stored. */
  predicate Exposed(c: Config, s: Memory, key: Key, data: Bytes) {
    |data| <= c.l1MaxSize &&
    exists j :: 0 <= j < |s.nodes| && s.nodes[j].key == key && Reached(c, s, c.l1MaxSize - |data|, j)
  }

  lemma KeptFront(c: Config, s: Memory, key: Key, other: Key, d: Bytes, at: int)
    requires Structure(c, s) && s.nodes != [] && Owns(s.nodes[0], key) && at <= s.nodes[0].expiresAt && other != key
    requires forall j :: 0 <= j < |s.nodes| && s.nodes[j].key == key ==> !Reached(c, s, |d|, j)
    ensures GetMemory(PutMemory(c, s, other, d, at), key, at).1 == Some(s.nodes[0].data)
  {
    MakeRoomLeavesFront(c, s, |d|);
    var r := MakeRoom(c, s, |d|).nodes;
    assert Find(r, other) > 0;
    var p := PutMemory(c, s, other, d, at).nodes;
    assert p[1] == r[0];
    assert Find(p, key) == 1;
  }

  lemma HitIsMapped(m: Memory, key: Key, now: int)
    ensures GetMemory(m, key, now).1.Some? ==> key in LiveKeys(m.nodes)
  {
    var i := Find(m.nodes, key);
    if i < |m.nodes| {
      assert m.nodes[i].key in LiveKeys(m.nodes);
    }
  }

  lemma LostFront(c: Config, s: Memory, key: Key, j: nat, other: Key, d: Bytes, at: int)
    requires Structure(c, s) && Reached(c, s, |d|, j) && s.nodes[j].key == key && other != key
    ensures GetMemory(PutMemory(c, s, other, d, at), key, at).1 == None
  {
    var r, p := MakeRoom(c, s, |d|), PutMemory(c, s, other, d, at);
    assert OneOwner(r.nodes) by { MakeRoomKeeps(c, s, |d|); }
    assert key !in LiveKeys(r.nodes) by { MakeRoomTakes(c, s, |d|, j); }
    StoredKeys(c, r, other, d, at);
    assert key !in LiveKeys(p.nodes);
    HitIsMapped(p, key, at);
  }

  lemma StoredKeys(c: Config, m: Memory, key: Key, data: Bytes, at: int)
    requires OneOwner(m.nodes)
    ensures LiveKeys(StoreMemory(c, m, key, data, at).nodes) == LiveKeys(m.nodes) + {key}
  {
    RemovedKeys(m.nodes, key);
    LiveKeysOfCons(Node(key, data, at + c.ttl, true), DeleteMemory(m, key).nodes);
  }

  /**
   Exactly when the promise holds, in every state: an entry just stored survives the storing of any
   one other entry that fits next to it iff eviction up to what fits reaches no node of its key.
   */
  lemma KeptIffNotExposed(c: Config, m: Memory, key: Key, data: Bytes, at: int)
    requires Positive(c) && Structure(c, m)
    ensures var s := PutMemory(c, m, key, data, at);
      KeptNextToAny(c, s, key, data, at) <==> !Exposed(c, s, key, data)
  {
    var s := PutMemory(c, m, key, data, at);
    PutKeeps(c, m, key, data, at);
    assert s.nodes[0] == Node(key, data, at + c.ttl, true);
    if Exposed(c, s, key, data) {
      var j :| 0 <= j < |s.nodes| && s.nodes[j].key == key && Reached(c, s, c.l1MaxSize - |data|, j);
      var other, d := Key(key.text + "x"), seq(c.l1MaxSize - |data|, _ => 0 as byte);
      LostFront(c, s, key, j, other, d, at);
      assert other != key && |data| + |d| <= c.l1MaxSize;
    } else {
      forall other, d | other != key && |data| + |d| <= c.l1MaxSize
        ensures GetMemory(PutMemory(c, s, other, d, at), key, at).1 == Some(data)
      {
        forall j | 0 <= j < |s.nodes| && s.nodes[j].key == key
          ensures !Reached(c, s, |d|, j)
        {
          assert !Reached(c, s, c.l1MaxSize - |data|, j);
        }
        KeptFront(c, s, key, other, d, at);
      }
    }
  }
}
