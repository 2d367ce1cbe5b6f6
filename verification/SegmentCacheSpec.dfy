/** The two-tier segment cache on values. */
module SegmentCacheSpec {
  // The state of both tiers, what each operation does to it, and the structure that every run keeps.
  //
  // The memory tier is a recency list of nodes, front first, of which some are live: the map of the
  // cache holds exactly the live ones. InvalidateMedia takes entries out of the map and leaves their
  // nodes in the list, so nodes that are not live exist. The disk tier is a directory: for each key a
  // segment and the modification time of its .meta file.

  import opened Options

  newtype byte = x: int | 0 <= x < 256

  type Bytes = seq<byte>

  datatype Key = Key(text: string)

  datatype Config = Config(l1MaxSize: int, l1MaxItems: int, l2On: bool, l2MaxSize: int, ttl: int)

  datatype Node = Node(key: Key, data: Bytes, expiresAt: int, live: bool)

  datatype Memory = Memory(nodes: seq<Node>, size: int)

  datatype File = File(data: Bytes, mtime: int)

  datatype Disk = Disk(files: map<Key, File>, size: int)

  datatype Cache = Cache(l1: Memory, l2: Disk)

  const EMPTY := Cache(Memory([], 0), Disk(map[], 0))

  /** Limits that make sense: NewSegmentCache replaces zeros, and nobody configures negative ones. */
  predicate Positive(c: Config) {
    0 < c.l1MaxSize && 0 < c.l1MaxItems && 0 < c.l2MaxSize && 0 < c.ttl
  }

  // ---------- The recency list ----------

  predicate Owns(n: Node, key: Key) {
    n.live && n.key == key
  }

  /** The position of the node that the map holds for `key`, or the length of the list. */
  function Find(nodes: seq<Node>, key: Key): (i: nat)
    ensures i <= |nodes|
    ensures i < |nodes| ==> Owns(nodes[i], key)
    ensures forall j :: 0 <= j < i ==> !Owns(nodes[j], key)
  {
    if nodes == [] || Owns(nodes[0], key) then 0 else 1 + Find(nodes[1..], key)
  }

  /** Where element k was before the element at position i was removed. */
  function Skip(i: nat, k: int): int {
    if k < i then k else k + 1
  }

  /** Where element k was before the element at position i was moved to the front, and the inverse. */
  function Before(i: nat, k: int): int {
    if k == 0 then i else Skip(i, k - 1)
  }

  function After(i: nat, k: int): int {
    if k < i then k + 1 else if k == i then 0 else k
  }

  /** The list without its element at position i, if there is one. */
  function RemoveAt<T>(s: seq<T>, i: nat): (r: seq<T>)
    ensures i >= |s| ==> r == s
    ensures i < |s| ==> |r| == |s| - 1 && forall k :: 0 <= k < |r| ==> r[k] == s[Skip(i, k)]
  {
    if i >= |s| then s
    else seq(|s| - 1, k requires 0 <= k < |s| - 1 => s[Skip(i, k)])
  }

  /** The list with its element at position i, if there is one, moved to the front. */
  function MoveToFront<T>(s: seq<T>, i: nat): (r: seq<T>)
    ensures |r| == |s|
    ensures i >= |s| ==> r == s
    ensures i < |s| ==> forall k :: 0 <= k < |r| ==> r[k] == s[Before(i, k)]
  {
    if i >= |s| then s
    else seq(|s|, k requires 0 <= k < |s| => s[Before(i, k)])
  }

  /** Takes `key` out of the map and leaves the list as it is. */
  function Unmap(nodes: seq<Node>, key: Key): (r: seq<Node>) {
    seq(|nodes|, i requires 0 <= i < |nodes| =>
      if nodes[i].key == key then nodes[i].(live := false) else nodes[i])
  }

  function SizeAt(nodes: seq<Node>, i: nat): int {
    if i < |nodes| then |nodes[i].data| else 0
  }

  /** The keys of the map. */
  function LiveKeys(nodes: seq<Node>): set<Key> {
    set i | 0 <= i < |nodes| && nodes[i].live :: nodes[i].key
  }

  function Sum(nodes: seq<Node>): int {
    if nodes == [] then 0 else |nodes[0].data| + Sum(nodes[1..])
  }

  // ---------- The memory tier ----------

  /** evictL1: drops the last node and whatever the map holds under its key. */
  function EvictMemory(m: Memory): Memory
    requires m.nodes != []
  {
    var last := |m.nodes| - 1;
    Memory(Unmap(m.nodes[..last], m.nodes[last].key), m.size - |m.nodes[last].data|)
  }

  predicate MustEvict(c: Config, m: Memory, need: int) {
    (m.size + need > c.l1MaxSize || |LiveKeys(m.nodes)| >= c.l1MaxItems) && |m.nodes| > 0
  }

  function MakeRoom(c: Config, m: Memory, need: int): Memory
    decreases |m.nodes|
  {
    if MustEvict(c, m, need) then MakeRoom(c, EvictMemory(m), need) else m
  }

  /** deleteL1 */
  function DeleteMemory(m: Memory, key: Key): Memory {
    var i := Find(m.nodes, key);
    Memory(RemoveAt(m.nodes, i), m.size - SizeAt(m.nodes, i))
  }

  /** The rest of setL1: an existing entry is refreshed and moved to the front, or a new one added there. */
  function StoreMemory(c: Config, m: Memory, key: Key, data: Bytes, now: int): Memory {
    var rest := DeleteMemory(m, key);
    Memory([Node(key, data, now + c.ttl, true)] + rest.nodes, rest.size + |data|)
  }

  /** setL1: room is made before it is known whether the key is there. */
  function PutMemory(c: Config, m: Memory, key: Key, data: Bytes, now: int): Memory {
    StoreMemory(c, MakeRoom(c, m, |data|), key, data, now)
  }

  /** The second critical section of getL1, for the entry at position i of the list. */
  function TouchMemory(m: Memory, i: nat): Memory {
    Memory(MoveToFront(m.nodes, i), m.size)
  }

  /** getL1 */
  function GetMemory(m: Memory, key: Key, now: int): (Memory, Option<Bytes>) {
    var i := Find(m.nodes, key);
    if i == |m.nodes| then (m, None)
    else if now > m.nodes[i].expiresAt then (DeleteMemory(m, key), None)
    else (TouchMemory(m, i), Some(m.nodes[i].data))
  }

  /** A media item's keys all start with its id and a colon. */
  predicate HasPrefix(key: Key, prefix: string) {
    prefix <= key.text
  }

  /** InvalidateMedia: the map forgets, the list and the byte counter do not. */
  function ForgetMedia(m: Memory, mediaId: string): Memory {
    Memory(
      seq(|m.nodes|, i requires 0 <= i < |m.nodes| =>
        if HasPrefix(m.nodes[i].key, mediaId + ":") then m.nodes[i].(live := false) else m.nodes[i]),
      m.size)
  }

  predicate Stale(n: Node, keys: set<Key>, now: int) {
    n.live && n.key in keys && now > n.expiresAt
  }

  /** The list without the expired entries of the map that lie under `keys`. */
  function Purge(nodes: seq<Node>, keys: set<Key>, now: int): seq<Node> {
    if nodes == [] then []
    else if Stale(nodes[0], keys, now) then Purge(nodes[1..], keys, now)
    else [nodes[0]] + Purge(nodes[1..], keys, now)
  }

  /** The memory half of cleanupExpired. */
  function CleanMemory(m: Memory, now: int): Memory {
    var nodes := Purge(m.nodes, LiveKeys(m.nodes), now);
    Memory(nodes, m.size - (Sum(m.nodes) - Sum(nodes)))
  }

  // ---------- The structure of the memory tier ----------

  /** No two live nodes share a key. */
  predicate OneOwner(nodes: seq<Node>) {
    forall i, j :: 0 <= i < j < |nodes| && nodes[i].live && nodes[j].live ==> nodes[i].key != nodes[j].key
  }

  predicate Structure(c: Config, m: Memory) {
    && m.size == Sum(m.nodes)
    && OneOwner(m.nodes)
    && |LiveKeys(m.nodes)| <= c.l1MaxItems
    && (m.size <= c.l1MaxSize || |m.nodes| == 1)
  }

  predicate AllLive(nodes: seq<Node>) {
    forall i :: 0 <= i < |nodes| ==> nodes[i].live
  }

  lemma {:induction false} SumAppend(a: seq<Node>, b: seq<Node>)
    ensures Sum(a + b) == Sum(a) + Sum(b)
    decreases |a|
  {
    if a == [] {
      assert a + b == b;
    } else {
      assert (a + b)[1..] == a[1..] + b;
      SumAppend(a[1..], b);
    }
  }

  lemma {:induction false} SumIsNat(nodes: seq<Node>)
    ensures 0 <= Sum(nodes)
    decreases |nodes|
  {
    if nodes != [] {
      SumIsNat(nodes[1..]);
    }
  }

  lemma SumRemoveAt(nodes: seq<Node>, i: nat)
    ensures Sum(RemoveAt(nodes, i)) == Sum(nodes) - SizeAt(nodes, i)
  {
    if i < |nodes| {
      assert RemoveAt(nodes, i) == nodes[..i] + nodes[i + 1..];
      assert nodes == nodes[..i] + ([nodes[i]] + nodes[i + 1..]);
      SumAppend(nodes[..i], [nodes[i]] + nodes[i + 1..]);
      SumAppend([nodes[i]], nodes[i + 1..]);
      SumAppend(nodes[..i], nodes[i + 1..]);
    }
  }

  /** The sum depends on the data only. */
  lemma {:induction false} SumOfData(a: seq<Node>, b: seq<Node>)
    requires |a| == |b| && forall i :: 0 <= i < |a| ==> a[i].data == b[i].data
    ensures Sum(a) == Sum(b)
    decreases |a|
  {
    if a != [] {
      SumOfData(a[1..], b[1..]);
    }
  }

  lemma MoveToFrontIsPush<T>(s: seq<T>, i: nat)
    requires i < |s|
    ensures MoveToFront(s, i) == [s[i]] + RemoveAt(s, i)
  {
    var moved, pushed := MoveToFront(s, i), [s[i]] + RemoveAt(s, i);
    assert |moved| == |pushed|;
    assert forall k :: 0 < k < |s| ==> pushed[k] == RemoveAt(s, i)[k - 1];
    assert forall k :: 0 <= k < |s| ==> moved[k] == pushed[k];
  }

  lemma SumMoveToFront(nodes: seq<Node>, i: nat)
    ensures Sum(MoveToFront(nodes, i)) == Sum(nodes)
  {
    if i < |nodes| {
      MoveToFrontIsPush(nodes, i);
      SumRemoveAt(nodes, i);
      SumAppend([nodes[i]], RemoveAt(nodes, i));
    }
  }

  lemma CardinalitySubset<T>(a: set<T>, b: set<T>)
    requires a <= b
    ensures |a| <= |b|
  {
    if a != {} {
      var x :| x in a;
      CardinalitySubset(a - {x}, b - {x});
    }
  }

  /** EvictMemory keeps the counter exact and takes the key out of the map. */
  lemma EvictKeeps(m: Memory)
    requires m.nodes != [] && m.size == Sum(m.nodes) && OneOwner(m.nodes)
    ensures var e := EvictMemory(m);
      && e.size == Sum(e.nodes) && OneOwner(e.nodes)
      && LiveKeys(e.nodes) == LiveKeys(m.nodes) - {m.nodes[|m.nodes| - 1].key}
      && (AllLive(m.nodes) ==> e.nodes == m.nodes[..|m.nodes| - 1])
  {
    var last := |m.nodes| - 1;
    var rest := m.nodes[..last];
    assert m.nodes == rest + [m.nodes[last]];
    SumAppend(rest, [m.nodes[last]]);
    var e := EvictMemory(m);
    SumOfData(e.nodes, rest);
    forall k | k in LiveKeys(m.nodes) && k != m.nodes[last].key
      ensures k in LiveKeys(e.nodes)
    {
      var i :| 0 <= i < |m.nodes| && m.nodes[i].live && m.nodes[i].key == k;
      assert e.nodes[i] == m.nodes[i];
    }
    forall k | k in LiveKeys(e.nodes)
      ensures k in LiveKeys(m.nodes) && k != m.nodes[last].key
    {
      var i :| 0 <= i < |e.nodes| && e.nodes[i].live && e.nodes[i].key == k;
      assert e.nodes[i] == m.nodes[i];
    }
    if AllLive(m.nodes) {
      assert forall i :: 0 <= i < last ==> e.nodes[i] == m.nodes[i];
    }
  }

  /** After room is made the new entry fits, or it will be alone. */
  lemma {:induction false} MakeRoomKeeps(c: Config, m: Memory, need: int)
    requires m.size == Sum(m.nodes) && OneOwner(m.nodes)
    ensures var r := MakeRoom(c, m, need);
      && r.size == Sum(r.nodes) && OneOwner(r.nodes)
      && (AllLive(m.nodes) ==> AllLive(r.nodes))
      && (r.nodes == [] || (r.size + need <= c.l1MaxSize && |LiveKeys(r.nodes)| < c.l1MaxItems))
    decreases |m.nodes|
  {
    if MustEvict(c, m, need) {
      EvictKeeps(m);
      MakeRoomKeeps(c, EvictMemory(m), need);
    }
  }

  lemma RemovedKeys(nodes: seq<Node>, key: Key)
    requires OneOwner(nodes)
    ensures LiveKeys(RemoveAt(nodes, Find(nodes, key))) == LiveKeys(nodes) - {key}
  {
    var i := Find(nodes, key);
    var rest := RemoveAt(nodes, i);
    forall k | k in LiveKeys(nodes) && k != key
      ensures k in LiveKeys(rest)
    {
      var j :| 0 <= j < |nodes| && nodes[j].live && nodes[j].key == k;
      assert rest[if j < i then j else j - 1] == nodes[j];
    }
    forall k | k in LiveKeys(rest)
      ensures k in LiveKeys(nodes) && k != key
    {
      var j :| 0 <= j < |rest| && rest[j].live && rest[j].key == k;
      assert rest[j] == nodes[Skip(i, j)];
    }
  }

  lemma DeleteKeeps(c: Config, m: Memory, key: Key)
    requires m.size == Sum(m.nodes) && OneOwner(m.nodes)
    ensures var d := DeleteMemory(m, key);
      && d.size == Sum(d.nodes) <= Sum(m.nodes) && OneOwner(d.nodes)
      && LiveKeys(d.nodes) == LiveKeys(m.nodes) - {key}
      && (AllLive(m.nodes) ==> AllLive(d.nodes))
  {
    SumRemoveAt(m.nodes, Find(m.nodes, key));
    RemovedKeys(m.nodes, key);
  }

  lemma LiveKeysOfCons(n: Node, rest: seq<Node>)
    ensures LiveKeys([n] + rest) == LiveKeys(rest) + if n.live then {n.key} else {}
  {
    var nodes := [n] + rest;
    forall k | k in LiveKeys(nodes)
      ensures k in LiveKeys(rest) || (n.live && k == n.key)
    {
      var i :| 0 <= i < |nodes| && nodes[i].live && nodes[i].key == k;
      if i > 0 { assert rest[i - 1] == nodes[i]; }
    }
    forall k | k in LiveKeys(rest)
      ensures k in LiveKeys(nodes)
    {
      var i :| 0 <= i < |rest| && rest[i].live && rest[i].key == k;
      assert nodes[i + 1] == rest[i];
    }
    assert nodes[0] == n;
  }

  lemma PutKeeps(c: Config, m: Memory, key: Key, data: Bytes, now: int)
    requires Positive(c) && Structure(c, m)
    ensures Structure(c, PutMemory(c, m, key, data, now))
    ensures AllLive(m.nodes) ==> AllLive(PutMemory(c, m, key, data, now).nodes)
  {
    var r := MakeRoom(c, m, |data|);
    assert RoomFor(c, r, |data|) by { MakeRoomKeeps(c, m, |data|); }
    assert AllLive(m.nodes) ==> AllLive(r.nodes) by { MakeRoomKeeps(c, m, |data|); }
    DeleteThenPushKeeps(c, r, Node(key, data, now + c.ttl, true));
  }

  /** What MakeRoom leaves behind. */
  predicate RoomFor(c: Config, r: Memory, need: int) {
    && r.size == Sum(r.nodes) && OneOwner(r.nodes)
    && (r.nodes == [] || (r.size + need <= c.l1MaxSize && |LiveKeys(r.nodes)| < c.l1MaxItems))
  }

  lemma DeleteThenPushKeeps(c: Config, r: Memory, n: Node)
    requires Positive(c) && n.live && RoomFor(c, r, |n.data|)
    ensures var d := DeleteMemory(r, n.key);
      && Structure(c, Memory([n] + d.nodes, d.size + |n.data|))
      && (AllLive(r.nodes) ==> AllLive([n] + d.nodes))
  {
    DeleteKeeps(c, r, n.key);
    var d := DeleteMemory(r, n.key);
    PushKeeps(c, d, n);
    CardinalitySubset(LiveKeys(d.nodes), LiveKeys(r.nodes));
  }

  lemma PushKeeps(c: Config, d: Memory, n: Node)
    requires n.live && n.key !in LiveKeys(d.nodes)
    requires d.size == Sum(d.nodes) && OneOwner(d.nodes)
    ensures var p := Memory([n] + d.nodes, d.size + |n.data|);
      && p.size == Sum(p.nodes) && OneOwner(p.nodes)
      && |LiveKeys(p.nodes)| == |LiveKeys(d.nodes)| + 1
  {
    LiveKeysOfCons(n, d.nodes);
    assert forall j :: 0 <= j < |d.nodes| && d.nodes[j].live ==> d.nodes[j].key in LiveKeys(d.nodes);
  }

  lemma LiveKeysAround(nodes: seq<Node>, i: nat)
    requires i < |nodes|
    ensures LiveKeys(nodes) == LiveKeys(RemoveAt(nodes, i)) + if nodes[i].live then {nodes[i].key} else {}
  {
    var rest := RemoveAt(nodes, i);
    forall k | k in LiveKeys(nodes)
      ensures k in LiveKeys(rest) || (nodes[i].live && k == nodes[i].key)
    {
      var j :| 0 <= j < |nodes| && nodes[j].live && nodes[j].key == k;
      if j != i { assert rest[if j < i then j else j - 1] == nodes[j]; }
    }
    forall k | k in LiveKeys(rest)
      ensures k in LiveKeys(nodes)
    {
      var j :| 0 <= j < |rest| && rest[j].live && rest[j].key == k;
      assert rest[j] == nodes[Skip(i, j)];
    }
  }

  lemma MovedKeys(nodes: seq<Node>, i: nat)
    requires i < |nodes|
    ensures LiveKeys(MoveToFront(nodes, i)) == LiveKeys(nodes)
  {
    MoveToFrontIsPush(nodes, i);
    LiveKeysOfCons(nodes[i], RemoveAt(nodes, i));
    LiveKeysAround(nodes, i);
  }

  lemma TouchKeeps(c: Config, m: Memory, i: nat)
    requires Structure(c, m)
    ensures Structure(c, TouchMemory(m, i))
    ensures LiveKeys(TouchMemory(m, i).nodes) == LiveKeys(m.nodes)
    ensures AllLive(m.nodes) ==> AllLive(TouchMemory(m, i).nodes)
  {
    if i < |m.nodes| {
      SumMoveToFront(m.nodes, i);
      MovedKeys(m.nodes, i);
      MovedOwners(m.nodes, i);
    }
  }

  lemma MovedOwners(nodes: seq<Node>, i: nat)
    requires OneOwner(nodes) && i < |nodes|
    ensures OneOwner(MoveToFront(nodes, i))
  {
    var moved := MoveToFront(nodes, i);
    forall j, k | 0 <= j < k < |moved| && moved[j].live && moved[k].live
      ensures moved[j].key != moved[k].key
    {
      var j', k' := Before(i, j), Before(i, k);
      assert moved[j] == nodes[j'] && moved[k] == nodes[k'];
      if j' < k' { assert nodes[j'].key != nodes[k'].key; } else { assert nodes[k'].key != nodes[j'].key; }
    }
  }

  lemma ForgetKeeps(c: Config, m: Memory, mediaId: string)
    requires Structure(c, m)
    ensures Structure(c, ForgetMedia(m, mediaId))
  {
    var f := ForgetMedia(m, mediaId);
    SumOfData(f.nodes, m.nodes);
    assert LiveKeys(f.nodes) <= LiveKeys(m.nodes);
    CardinalitySubset(LiveKeys(f.nodes), LiveKeys(m.nodes));
  }

  lemma {:induction false} PurgeMembers(nodes: seq<Node>, keys: set<Key>, now: int)
    ensures forall x :: x in Purge(nodes, keys, now) ==> x in nodes && !Stale(x, keys, now)
    decreases |nodes|
  {
    if nodes != [] {
      PurgeMembers(nodes[1..], keys, now);
    }
  }

  lemma {:induction false} PurgeSum(nodes: seq<Node>, keys: set<Key>, now: int)
    ensures |Purge(nodes, keys, now)| <= |nodes| && 0 <= Sum(Purge(nodes, keys, now)) <= Sum(nodes)
    decreases |nodes|
  {
    if nodes != [] {
      PurgeSum(nodes[1..], keys, now);
    }
  }

  lemma {:induction false} PurgeKeeps(nodes: seq<Node>, keys: set<Key>, now: int)
    requires OneOwner(nodes)
    ensures var p := Purge(nodes, keys, now);
      && |p| <= |nodes|
      && 0 <= Sum(p) <= Sum(nodes) && OneOwner(p)
      && LiveKeys(p) <= LiveKeys(nodes)
      && (forall x :: x in p ==> x in nodes && !Stale(x, keys, now))
      && (AllLive(nodes) ==> AllLive(p))
    decreases |nodes|
  {
    PurgeMembers(nodes, keys, now);
    PurgeSum(nodes, keys, now);
    if nodes != [] {
      var q := Purge(nodes[1..], keys, now);
      PurgeKeeps(nodes[1..], keys, now);
      assert nodes == [nodes[0]] + nodes[1..];
      LiveKeysOfCons(nodes[0], nodes[1..]);
      LiveKeysOfCons(nodes[0], q);
      if !Stale(nodes[0], keys, now) {
        forall i | 0 <= i < |q| && q[i].live && nodes[0].live
          ensures q[i].key != nodes[0].key
        {
          assert q[i] in nodes[1..];
        }
      }
    }
  }

  lemma CleanKeeps(c: Config, m: Memory, now: int)
    requires Positive(c) && Structure(c, m)
    ensures Structure(c, CleanMemory(m, now))
    ensures AllLive(m.nodes) ==> AllLive(CleanMemory(m, now).nodes)
  {
    PurgeKeeps(m.nodes, LiveKeys(m.nodes), now);
    CardinalitySubset(LiveKeys(CleanMemory(m, now).nodes), LiveKeys(m.nodes));
  }

  /** The list without the one node that the map holds for the key, if that has expired. */
  function DropExpired(nodes: seq<Node>, key: Key, now: int): seq<Node> {
    var i := Find(nodes, key);
    if i < |nodes| && now > nodes[i].expiresAt then RemoveAt(nodes, i) else nodes
  }

  lemma RemoveFirst<T>(x: T, s: seq<T>)
    ensures RemoveAt([x] + s, 0) == s
  {
    assert forall k :: 0 <= k < |s| ==> RemoveAt([x] + s, 0)[k] == s[k];
  }

  lemma RemoveAtOfCons<T>(x: T, s: seq<T>, i: nat)
    ensures RemoveAt([x] + s, i + 1) == [x] + RemoveAt(s, i)
  {
    var all, rest := [x] + s, RemoveAt(s, i);
    if i < |s| {
      var r := RemoveAt(all, i + 1);
      forall k | 0 <= k < |r| ensures r[k] == ([x] + rest)[k] {
        if k > 0 { assert rest[k - 1] == s[Skip(i, k - 1)] == all[Skip(i + 1, k)]; }
      }
    }
  }

  lemma FindOfCons(n: Node, rest: seq<Node>, key: Key)
    ensures Find([n] + rest, key) == if Owns(n, key) then 0 else 1 + Find(rest, key)
  {
    assert ([n] + rest)[1..] == rest;
  }

  lemma DropExpiredOfCons(n: Node, rest: seq<Node>, key: Key, now: int)
    ensures DropExpired([n] + rest, key, now) ==
            if Owns(n, key) then if now > n.expiresAt then rest else [n] + rest
            else [n] + DropExpired(rest, key, now)
  {
    var i, all := Find(rest, key), [n] + rest;
    assert Find(all, key) == if Owns(n, key) then 0 else 1 + i by { FindOfCons(n, rest, key); }
    if Owns(n, key) {
      assert RemoveAt(all, 0) == rest by { RemoveFirst(n, rest); }
    } else if i < |rest| {
      assert all[i + 1] == rest[i];
      assert RemoveAt(all, i + 1) == [n] + RemoveAt(rest, i) by { RemoveAtOfCons(n, rest, i); }
    }
  }

  lemma {:induction false} PurgeOne(nodes: seq<Node>, key: Key, now: int)
    requires OneOwner(nodes)
    ensures Purge(nodes, {key}, now) == DropExpired(nodes, key, now)
    decreases |nodes|
  {
    if nodes != [] {
      var n, rest := nodes[0], nodes[1..];
      PurgeOne(rest, key, now);
      assert nodes == [n] + rest;
      DropExpiredOfCons(n, rest, key, now);
      if Owns(n, key) {
        NoOtherOwner(nodes, key);
        assert DropExpired(rest, key, now) == rest;
      }
    }
  }

  lemma NoOtherOwner(nodes: seq<Node>, key: Key)
    requires OneOwner(nodes) && nodes != [] && Owns(nodes[0], key)
    ensures Find(nodes[1..], key) == |nodes[1..]|
  {
  }

  lemma {:induction false} PurgeMore(nodes: seq<Node>, keys: set<Key>, more: set<Key>, now: int)
    ensures Purge(nodes, keys + more, now) == Purge(Purge(nodes, keys, now), more, now)
    decreases |nodes|
  {
    if nodes != [] {
      PurgeMore(nodes[1..], keys, more, now);
    }
  }

  lemma {:induction false} PurgeNone(nodes: seq<Node>, now: int)
    ensures Purge(nodes, {}, now) == nodes
    decreases |nodes|
  {
    if nodes != [] {
      PurgeNone(nodes[1..], now);
    }
  }

  /** Purging `keys` one key at a time, with `todo` still to come. */
  function PurgeUpTo(nodes: seq<Node>, keys: set<Key>, todo: set<Key>, now: int): seq<Node> {
    Purge(nodes, keys - todo, now)
  }

  lemma PurgeStart(nodes: seq<Node>, keys: set<Key>, now: int)
    ensures PurgeUpTo(nodes, keys, keys, now) == nodes
  {
    assert keys - keys == {};
    PurgeNone(nodes, now);
  }

  lemma PurgeStep(nodes: seq<Node>, keys: set<Key>, todo: set<Key>, key: Key, now: int)
    requires key in keys
    ensures PurgeUpTo(nodes, keys, todo - {key}, now) == Purge(PurgeUpTo(nodes, keys, todo, now), {key}, now)
  {
    if key in todo {
      assert keys - (todo - {key}) == (keys - todo) + {key};
    } else {
      assert keys - (todo - {key}) == keys - todo == (keys - todo) + {key};
    }
    PurgeMore(nodes, keys - todo, {key}, now);
  }

  // ---------- For the object ----------

  /** Changing an element and moving it to the front is removing it and pushing the changed one. */
  lemma ChangeAndMove<T>(s: seq<T>, i: nat, x: T)
    requires i < |s|
    ensures MoveToFront(s[i := x], i) == [x] + RemoveAt(s, i)
  {
    MoveToFrontIsPush(s[i := x], i);
    assert RemoveAt(s[i := x], i) == RemoveAt(s, i);
  }

  /** An entry of the map is changed where it is and moved to the front. */
  function Refreshed(c: Config, m: Memory, key: Key, data: Bytes, now: int): Memory
    requires Find(m.nodes, key) < |m.nodes|
  {
    var i := Find(m.nodes, key);
    Memory(MoveToFront(m.nodes[i := Node(key, data, now + c.ttl, true)], i), m.size - |m.nodes[i].data| + |data|)
  }

  lemma StoreOver(c: Config, m: Memory, key: Key, data: Bytes, now: int)
    requires Find(m.nodes, key) < |m.nodes|
    ensures StoreMemory(c, m, key, data, now) == Refreshed(c, m, key, data, now)
  {
    ChangeAndMove(m.nodes, Find(m.nodes, key), Node(key, data, now + c.ttl, true));
  }

  lemma StoreNew(c: Config, m: Memory, key: Key, data: Bytes, now: int)
    requires Find(m.nodes, key) == |m.nodes|
    ensures StoreMemory(c, m, key, data, now) ==
            Memory([Node(key, data, now + c.ttl, true)] + m.nodes, m.size + |data|)
  {
  }

  ghost predicate Distinct<T>(s: seq<T>) {
    forall i, j :: 0 <= i < j < |s| ==> s[i] != s[j]
  }

  lemma RemoveAtKeepsOthers<T>(s: seq<T>, i: nat, x: T)
    requires x in s && (i < |s| ==> x != s[i])
    ensures x in RemoveAt(s, i)
  {
    var j :| 0 <= j < |s| && s[j] == x;
    if i < |s| {
      assert RemoveAt(s, i)[if j < i then j else j - 1] == x;
    }
  }

  lemma MoveToFrontMembers<T>(s: seq<T>, i: nat)
    ensures forall x :: x in s ==> x in MoveToFront(s, i)
    ensures forall x :: x in MoveToFront(s, i) ==> x in s
    ensures Distinct(s) ==> Distinct(MoveToFront(s, i))
  {
    var moved := MoveToFront(s, i);
    if i < |s| {
      forall x | x in s ensures x in moved {
        var j :| 0 <= j < |s| && s[j] == x;
        assert moved[After(i, j)] == x;
      }
      forall x | x in moved ensures x in s {
        var j :| 0 <= j < |moved| && moved[j] == x;
        assert s[Before(i, j)] == x;
      }
    }
  }
}
