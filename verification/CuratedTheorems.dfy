/** Lookups in the curated database against a plain list of the live devices, over whole histories. */
module CuratedTheorems {
  import opened Options
  import opened Codec
  import opened CuratedIndex

  datatype Op = Add(device: Device) | Remove(id: Id) | Vote(id: Id, up: bool) | Verify(id: Id) | Load(device: Device)

  function Apply(db: Database, op: Op): Database {
    match op
    case Add(d) => AfterAdd(db, d)
    case Remove(id) => AfterRemove(db, id)
    case Vote(id, up) => AfterVote(db, id, up)
    case Verify(id) => AfterVerify(db, id)
    case Load(d) => AfterLoad(db, d)
  }

  /** The database after `h`, the latest operation last. */
  function After(h: seq<Op>): Database {
    if h == [] then EMPTY else Apply(After(h[..|h| - 1]), h[|h| - 1])
  }

  // ---------- The reference: a list of live devices ----------

  function Without(live: seq<Device>, id: Id): seq<Device> {
    if live == [] then []
    else Without(live[..|live| - 1], id) + if live[|live| - 1].id == id then [] else [live[|live| - 1]]
  }

  function VotedIn(live: seq<Device>, id: Id, up: bool): seq<Device> {
    seq(|live|, i requires 0 <= i < |live| => if live[i].id == id then Voted(live[i], up) else live[i])
  }

  function VerifiedIn(live: seq<Device>, id: Id): seq<Device> {
    seq(|live|, i requires 0 <= i < |live| => if live[i].id == id then live[i].(verified := true) else live[i])
  }

  function NextLive(live: seq<Device>, op: Op): seq<Device> {
    match op
    case Add(d) => live + [d]
    case Remove(id) => Without(live, id)
    case Vote(id, up) => VotedIn(live, id, up)
    case Verify(id) => VerifiedIn(live, id)
    case Load(_) => if Enters(live, op) then live + [op.device] else live
  }

  /** The operation adds a device; the loader does so if no live device has the hash. */
  predicate Enters(live: seq<Device>, op: Op) {
    op.Add? || (op.Load? && Select(live, ByHash(op.device.hash)) == [])
  }

  /** The live devices after a history without merging, in the order in which they were added. */
  function Live(h: seq<Op>): seq<Device> {
    if h == [] then [] else NextLive(Live(h[..|h| - 1]), h[|h| - 1])
  }

  function CountCodec(codecs: seq<string>, c: Folded): nat {
    if codecs == [] then 0
    else CountCodec(codecs[..|codecs| - 1], c) + if Lowered(codecs[|codecs| - 1]) == c then 1 else 0
  }

  /** How often a device answers a query: once for its hash and platform, once per listing of a codec. */
  function Times(d: Device, q: Query): nat {
    match q
    case ByHash(hash) => if d.hash == hash then 1 else 0
    case ByPlatform(p) => if Lowered(d.platform) == p then 1 else 0
    case ByCodec(c) => CountCodec(d.videoCodecs, c)
  }

  function Repeat<T>(x: T, n: nat): seq<T> {
    seq(n, _ => x)
  }

  /** The answer that a scan of the live devices gives. */
  function Select(live: seq<Device>, q: Query): seq<Device> {
    if live == [] then []
    else Select(live[..|live| - 1], q) + Repeat(live[|live| - 1], Times(live[|live| - 1], q))
  }

  function SelectIds(live: seq<Device>, q: Query): seq<Id> {
    if live == [] then []
    else SelectIds(live[..|live| - 1], q) + Repeat(live[|live| - 1].id, Times(live[|live| - 1], q))
  }

  /** The ids given out so far. */
  function Used(h: seq<Op>): set<Id> {
    if h == [] then {}
    else NowUsed(Live(h[..|h| - 1]), Used(h[..|h| - 1]), h[|h| - 1])
  }

  function NowUsed(live: seq<Device>, used: set<Id>, op: Op): set<Id> {
    if Enters(live, op) then used + {op.device.id} else used
  }

  /** A device that enters has a new id; one that is loaded under a hash that is taken is not better than the oldest. */
  predicate Simple(live: seq<Device>, used: set<Id>, op: Op) {
    match op
    case Add(d) => d.hash.text != "" && d.id !in used
    case Load(d) =>
      && d.hash.text != ""
      && (if Enters(live, op) then d.id !in used
          else !d.verified && d.votesUp <= Select(live, ByHash(d.hash))[0].votesUp)
    case _ => true
  }

  /** Nothing is merged, and ids are new. */
  predicate Plain(h: seq<Op>) {
    h != [] ==> Plain(h[..|h| - 1]) && Simple(Live(h[..|h| - 1]), Used(h[..|h| - 1]), h[|h| - 1])
  }

  // ---------- Index entries ----------

  lemma RepeatOneMore<T>(x: T, n: nat)
    ensures Repeat(x, n + 1) == Repeat(x, n) + [x]
  {
  }

  lemma {:induction false} CodecEntries(index: map<Query, seq<Id>>, codecs: seq<string>, id: Id, q: Query)
    ensures Ids(AddCodecs(index, codecs, id), q) ==
            Ids(index, q) + Repeat(id, if q.ByCodec? then CountCodec(codecs, q.codec) else 0)
    decreases |codecs|
  {
    if codecs != [] {
      CodecEntries(index, codecs[..|codecs| - 1], id, q);
      if q.ByCodec? {
        RepeatOneMore(id, CountCodec(codecs[..|codecs| - 1], q.codec));
      }
    }
  }

  /** Indexing a device appends its id as often as the device answers the query. */
  lemma IndexedEntries(index: map<Query, seq<Id>>, d: Device, q: Query)
    requires d.hash.text != ""
    ensures Ids(Indexed(index, d), q) == Ids(index, q) + Repeat(d.id, Times(d, q))
  {
    var hashed := AddEntry(index, ByHash(d.hash), d.id);
    CodecEntries(AddEntry(hashed, ByPlatform(Lowered(d.platform)), d.id), d.videoCodecs, d.id, q);
    assert Repeat(d.id, 1) == [d.id];
  }

  // ---------- Lists of live devices ----------

  predicate DistinctIds(live: seq<Device>) {
    forall i, j :: 0 <= i < j < |live| ==> live[i].id != live[j].id
  }

  /** The devices of the database are those of the list. */
  predicate Holds(devices: map<Id, Device>, live: seq<Device>) {
    && DistinctIds(live)
    && (forall i :: 0 <= i < |live| ==> live[i].id in devices && devices[live[i].id] == live[i])
    && (forall id :: id in devices ==> devices[id] in live && devices[id].id == id)
  }

  function Keep(ids: seq<Id>, keys: set<Id>): seq<Id> {
    if ids == [] then []
    else Keep(ids[..|ids| - 1], keys) + if ids[|ids| - 1] in keys then [ids[|ids| - 1]] else []
  }

  lemma {:induction false} KeepAppend(a: seq<Id>, b: seq<Id>, keys: set<Id>)
    ensures Keep(a + b, keys) == Keep(a, keys) + Keep(b, keys)
    decreases |b|
  {
    if b == [] {
      assert a + b == a;
    } else {
      assert (a + b)[..|a + b| - 1] == a + b[..|b| - 1];
      KeepAppend(a, b[..|b| - 1], keys);
    }
  }

  lemma {:induction false} KeepRepeat(id: Id, n: nat, keys: set<Id>)
    ensures Keep(Repeat(id, n), keys) == if id in keys then Repeat(id, n) else []
  {
    if n > 0 {
      assert Repeat(id, n)[..n - 1] == Repeat(id, n - 1);
      KeepRepeat(id, n - 1, keys);
      RepeatOneMore(id, n - 1);
    }
  }

  lemma {:induction false} KeepLess(ids: seq<Id>, keys: set<Id>, less: set<Id>)
    requires less <= keys
    ensures Keep(Keep(ids, keys), less) == Keep(ids, less)
    decreases |ids|
  {
    if ids != [] {
      var front, last := ids[..|ids| - 1], ids[|ids| - 1];
      KeepLess(front, keys, less);
      if last in keys {
        KeepAppend(Keep(front, keys), [last], less);
        assert [last][..0] == [];
      } else {
        assert last !in less;
        assert Keep(ids, keys) == Keep(front, keys);
      }
    }
  }

  /** Keys that do not occur make no difference. */
  lemma {:induction false} KeepSame(ids: seq<Id>, keys: set<Id>, more: set<Id>)
    requires forall i :: 0 <= i < |ids| ==> (ids[i] in keys <==> ids[i] in more)
    ensures Keep(ids, keys) == Keep(ids, more)
    decreases |ids|
  {
    if ids != [] {
      KeepSame(ids[..|ids| - 1], keys, more);
    }
  }

  function IdsOf(live: seq<Device>): set<Id> {
    set i | 0 <= i < |live| :: live[i].id
  }

  lemma {:induction false} SelectedAreLive(live: seq<Device>, q: Query, id: Id)
    requires id in SelectIds(live, q)
    ensures exists i :: 0 <= i < |live| && live[i].id == id && Times(live[i], q) > 0
    decreases |live|
  {
    var last := live[|live| - 1];
    var n := Times(last, q);
    if id in SelectIds(live[..|live| - 1], q) {
      SelectedAreLive(live[..|live| - 1], q, id);
      var i :| 0 <= i < |live| - 1 && live[..|live| - 1][i].id == id && Times(live[..|live| - 1][i], q) > 0;
      assert live[i].id == id;
    } else {
      assert id in Repeat(last.id, n);
    }
  }

  lemma SelectSnoc(live: seq<Device>, d: Device, q: Query)
    ensures SelectIds(live + [d], q) == SelectIds(live, q) + Repeat(d.id, Times(d, q))
  {
    assert (live + [d])[..|live + [d]| - 1] == live;
  }

  /** Dropping a device from the list drops its ids from every answer. */
  lemma {:induction false} SelectWithout(live: seq<Device>, q: Query, id: Id, keys: set<Id>)
    requires forall i :: 0 <= i < |live| ==> (live[i].id in keys <==> live[i].id != id)
    ensures SelectIds(Without(live, id), q) == Keep(SelectIds(live, q), keys)
    decreases |live|
  {
    if live != [] {
      var front, last := live[..|live| - 1], live[|live| - 1];
      SelectWithout(front, q, id, keys);
      KeepAppend(SelectIds(front, q), Repeat(last.id, Times(last, q)), keys);
      KeepRepeat(last.id, Times(last, q), keys);
      if last.id != id {
        assert Without(live, id) == Without(front, id) + [last];
        SelectSnoc(Without(front, id), last, q);
      } else {
        assert Without(live, id) == Without(front, id);
      }
    }
  }

  /** Removing the first occurrence is removing all, when there is at most one. */
  lemma {:induction false} RemoveOnly(ids: seq<Id>, id: Id, keys: set<Id>)
    requires forall i :: 0 <= i < |ids| ==> (ids[i] in keys <==> ids[i] != id)
    requires forall i, j :: 0 <= i < j < |ids| ==> ids[i] != id || ids[j] != id
    ensures RemoveFirst(ids, id) == Keep(ids, keys)
    decreases |ids|
  {
    if ids != [] {
      var head, tail := ids[..1], ids[1..];
      assert ids == head + tail;
      KeepAppend(head, tail, keys);
      assert Keep(head, keys) == if ids[0] in keys then head else [];
      if ids[0] == id {
        KeepAll(tail, keys);
      } else {
        RemoveOnly(tail, id, keys);
      }
    }
  }

  lemma {:induction false} KeepAll(ids: seq<Id>, keys: set<Id>)
    requires forall i :: 0 <= i < |ids| ==> ids[i] in keys
    ensures Keep(ids, keys) == ids
    decreases |ids|
  {
    if ids != [] {
      KeepAll(ids[..|ids| - 1], keys);
    }
  }

  /** A device with one entry is selected at most once. */
  lemma {:induction false} SelectedOnce(live: seq<Device>, q: Query, id: Id, i: nat, j: nat)
    requires DistinctIds(live) && !q.ByCodec?
    requires i < j < |SelectIds(live, q)|
    ensures SelectIds(live, q)[i] != id || SelectIds(live, q)[j] != id
    decreases |live|
  {
    var front, last := live[..|live| - 1], live[|live| - 1];
    var ids := SelectIds(front, q);
    if j < |ids| {
      SelectedOnce(front, q, id, i, j);
    } else if ids[i] == id {
      SelectedAreLive(front, q, id);
      var k :| 0 <= k < |front| && front[k].id == id;
      assert live[k].id != live[|live| - 1].id;
    }
  }

  // ---------- The invariant ----------

  /** The list that a scan of the live devices gives is what the index holds, up to dead codec entries. */
  ghost predicate Exact(db: Database, live: seq<Device>, q: Query) {
    && (!q.ByCodec? ==> Ids(db.index, q) == SelectIds(live, q))
    && Keep(Ids(db.index, q), db.devices.Keys) == SelectIds(live, q)
  }

  ghost predicate Known(db: Database, used: set<Id>, q: Query) {
    forall i :: 0 <= i < |Ids(db.index, q)| ==> Ids(db.index, q)[i] in used
  }

  ghost predicate Agrees(db: Database, live: seq<Device>, used: set<Id>) {
    && Holds(db.devices, live)
    && (forall q: Query :: Exact(db, live, q) && Known(db, used, q))
    && db.devices.Keys <= used
  }

  lemma {:induction false} WithoutMembers(live: seq<Device>, id: Id)
    ensures forall d :: d in Without(live, id) <==> d in live && d.id != id
    ensures DistinctIds(live) ==> DistinctIds(Without(live, id))
    decreases |live|
  {
    if live != [] {
      var front, last := live[..|live| - 1], live[|live| - 1];
      WithoutMembers(front, id);
      assert forall d :: d in live <==> d in front || d == last;
      if DistinctIds(live) && last.id != id {
        forall i | 0 <= i < |Without(front, id)|
          ensures Without(front, id)[i].id != last.id
        {
          assert Without(front, id)[i] in front;
        }
      }
    }
  }

  lemma HoldsRemove(devices: map<Id, Device>, live: seq<Device>, id: Id)
    requires Holds(devices, live)
    ensures Holds(devices - {id}, Without(live, id))
  {
    WithoutMembers(live, id);
    var rest := Without(live, id);
    forall i | 0 <= i < |rest|
      ensures rest[i].id in devices - {id} && devices[rest[i].id] == rest[i]
    {
      assert rest[i] in live;
    }
  }

  /** In an answer to a hash or platform query, taking out one device takes out its only entry. */
  lemma RemovedEntry(live: seq<Device>, id: Id, q: Query)
    requires DistinctIds(live) && !q.ByCodec?
    ensures RemoveFirst(SelectIds(live, q), id) == SelectIds(Without(live, id), q)
  {
    var ids := SelectIds(live, q);
    var keys := (IdsOf(live) + Members(ids)) - {id};
    SelectWithout(live, q, id, keys);
    forall i, j | 0 <= i < j < |ids|
      ensures ids[i] != id || ids[j] != id
    {
      SelectedOnce(live, q, id, i, j);
    }
    RemoveOnly(ids, id, keys);
  }

  function Members(ids: seq<Id>): set<Id> {
    set i | 0 <= i < |ids| :: ids[i]
  }

  lemma {:induction false} RemoveAbsent(ids: seq<Id>, id: Id)
    requires id !in ids
    ensures RemoveFirst(ids, id) == ids
    decreases |ids|
  {
    if ids != [] {
      RemoveAbsent(ids[1..], id);
    }
  }

  /** The entries of a removed device are its hash and its platform. */
  lemma RemovedIds(db: Database, id: Id, q: Query)
    requires id in db.devices && db.devices[id].hash.text != ""
    ensures Ids(AfterRemove(db, id).index, q) ==
            if q == ByHash(db.devices[id].hash) || q == ByPlatform(Lowered(db.devices[id].platform))
            then RemoveFirst(Ids(db.index, q), id) else Ids(db.index, q)
  {
    if id !in Ids(db.index, q) {
      RemoveAbsent(Ids(db.index, q), id);
    }
  }

  /** What the index holds of a hash or platform query after a removal. */
  lemma EntriesAfterRemove(db: Database, live: seq<Device>, id: Id, q: Query)
    requires Holds(db.devices, live) && id in db.devices && db.devices[id].hash.text != ""
    requires !q.ByCodec? && Ids(db.index, q) == SelectIds(live, q)
    ensures Ids(AfterRemove(db, id).index, q) == SelectIds(Without(live, id), q)
  {
    RemovedIds(db, id, q);
    RemovedEntry(live, id, q);
    var ids := SelectIds(live, q);
    if id in ids {
      SelectedAreLive(live, q, id);
      assert Times(db.devices[id], q) > 0;
    } else {
      RemoveAbsent(ids, id);
    }
  }

  lemma ExactRemove(db: Database, live: seq<Device>, used: set<Id>, id: Id, q: Query)
    requires Holds(db.devices, live) && id in db.devices && Exact(db, live, q) && Known(db, used, q)
    requires db.devices[id].hash.text != ""
    ensures Exact(AfterRemove(db, id), Without(live, id), q) && Known(AfterRemove(db, id), used, q)
  {
    var ids, keys := Ids(db.index, q), db.devices.Keys - {id};
    assert Keep(ids, keys) == SelectIds(Without(live, id), q) by {
      SelectWithout(live, q, id, keys);
      KeepLess(ids, db.devices.Keys, keys);
      KeepLess(ids, keys, keys);
    }
    if q.ByCodec? {
      RemovedIds(db, id, q);
    } else {
      EntriesAfterRemove(db, live, id, q);
      KeepLess(ids, keys, keys);
      RemovedKnown(ids, used, keys);
    }
  }

  lemma {:induction false} RemovedKnown(ids: seq<Id>, used: set<Id>, keys: set<Id>)
    requires forall i :: 0 <= i < |ids| ==> ids[i] in used
    ensures forall i :: 0 <= i < |Keep(ids, keys)| ==> Keep(ids, keys)[i] in used
    decreases |ids|
  {
    if ids != [] {
      RemovedKnown(ids[..|ids| - 1], used, keys);
    }
  }

  /** The two lists differ only in votes and verification. */
  predicate SameEntries(a: seq<Device>, b: seq<Device>) {
    |a| == |b| && forall i :: 0 <= i < |a| ==>
      && a[i].id == b[i].id && a[i].hash == b[i].hash
      && a[i].platform == b[i].platform && a[i].videoCodecs == b[i].videoCodecs
  }

  lemma {:induction false} SelectSame(a: seq<Device>, b: seq<Device>, q: Query)
    requires SameEntries(a, b)
    ensures SelectIds(a, q) == SelectIds(b, q)
    decreases |a|
  {
    if a != [] {
      SelectSame(a[..|a| - 1], b[..|b| - 1], q);
    }
  }

  lemma HoldsUpdate(devices: map<Id, Device>, live: seq<Device>, id: Id, d: Device, after: seq<Device>)
    requires Holds(devices, live) && id in devices && d.id == id && |after| == |live|
    requires forall i :: 0 <= i < |live| ==> after[i] == if live[i].id == id then d else live[i]
    ensures Holds(devices[id := d], after)
  {
    forall k | k in devices
      ensures devices[id := d][k] in after
    {
      UpdatedListed(devices, live, id, d, after, k);
    }
  }

  lemma UpdatedListed(devices: map<Id, Device>, live: seq<Device>, id: Id, d: Device, after: seq<Device>, k: Id)
    requires k in devices && devices[k] in live && devices[k].id == k && |after| == |live|
    requires forall i :: 0 <= i < |live| ==> after[i] == if live[i].id == id then d else live[i]
    ensures devices[id := d][k] in after
  {
    var i :| 0 <= i < |live| && live[i] == devices[k];
    assert after[i] == devices[id := d][k];
  }

  lemma AgreesUpdate(db: Database, live: seq<Device>, used: set<Id>, id: Id, d: Device, after: seq<Device>)
    requires Agrees(db, live, used) && id in db.devices && d.id == id && |after| == |live|
    requires forall i :: 0 <= i < |live| ==> after[i] == if live[i].id == id then d else live[i]
    requires SameEntries(after, live)
    ensures Agrees(db.(devices := db.devices[id := d]), after, used)
  {
    var next := db.(devices := db.devices[id := d]);
    HoldsUpdate(db.devices, live, id, d, after);
    assert next.devices.Keys == db.devices.Keys;
    forall q: Query
      ensures Exact(next, after, q) && Known(next, used, q)
    {
      assert Exact(db, live, q) && Known(db, used, q);
      SelectSame(after, live, q);
    }
  }

  lemma ExactAdd(db: Database, next: Database, live: seq<Device>, used: set<Id>, d: Device, q: Query)
    requires Exact(db, live, q) && Known(db, used, q) && d.id !in used
    requires next.devices.Keys == db.devices.Keys + {d.id}
    requires Ids(next.index, q) == Ids(db.index, q) + Repeat(d.id, Times(d, q))
    ensures Exact(next, live + [d], q) && Known(next, used + {d.id}, q)
  {
    SelectSnoc(live, d, q);
    var ids, n, keys := Ids(db.index, q), Times(d, q), db.devices.Keys;
    KeepAppend(ids, Repeat(d.id, n), keys + {d.id});
    KeepRepeat(d.id, n, keys + {d.id});
    KeepSame(ids, keys, keys + {d.id});
  }

  lemma AgreesAdd(db: Database, live: seq<Device>, used: set<Id>, d: Device)
    requires Agrees(db, live, used) && d.id !in used && d.hash.text != ""
    ensures Agrees(AfterAdd(db, d), live + [d], used + {d.id})
  {
    assert forall id :: id in db.devices ==> db.devices[id] in live + [d];
    assert (live + [d])[|live|] == d;
    forall q: Query
      ensures Exact(AfterAdd(db, d), live + [d], q) && Known(AfterAdd(db, d), used + {d.id}, q)
    {
      IndexedEntries(db.index, d, q);
      ExactAdd(db, AfterAdd(db, d), live, used, d, q);
    }
  }

  lemma AgreesRemove(db: Database, live: seq<Device>, used: set<Id>, id: Id)
    requires Agrees(db, live, used) && id in db.devices && db.devices[id].hash.text != ""
    ensures Agrees(AfterRemove(db, id), Without(live, id), used)
  {
    HoldsRemove(db.devices, live, id);
    forall q: Query
      ensures Exact(AfterRemove(db, id), Without(live, id), q) && Known(AfterRemove(db, id), used, q)
    {
      ExactRemove(db, live, used, id, q);
    }
  }

  lemma {:induction false} WithoutNothing(live: seq<Device>, id: Id)
    requires forall i :: 0 <= i < |live| ==> live[i].id != id
    ensures Without(live, id) == live
    decreases |live|
  {
    if live != [] {
      var front, last := live[..|live| - 1], live[|live| - 1];
      assert forall i :: 0 <= i < |front| ==> front[i] == live[i];
      WithoutNothing(front, id);
      assert last.id != id;
      assert front + [last] == live;
    }
  }

  /** Every live device has a hash, because every added one has. */
  predicate Hashed(live: seq<Device>) {
    forall i :: 0 <= i < |live| ==> live[i].hash.text != ""
  }

  lemma RemoveKeeps(db: Database, live: seq<Device>, used: set<Id>, id: Id)
    requires Agrees(db, live, used) && Hashed(live)
    ensures Hashed(Without(live, id)) && Agrees(AfterRemove(db, id), Without(live, id), used)
  {
    WithoutMembers(live, id);
    forall i | 0 <= i < |Without(live, id)|
      ensures Without(live, id)[i].hash.text != ""
    {
      assert Without(live, id)[i] in live;
    }
    if id in db.devices {
      AgreesRemove(db, live, used, id);
    } else {
      WithoutNothing(live, id);
    }
  }

  lemma VoteKeeps(db: Database, live: seq<Device>, used: set<Id>, id: Id, up: bool)
    requires Agrees(db, live, used) && Hashed(live)
    ensures Hashed(VotedIn(live, id, up)) && Agrees(AfterVote(db, id, up), VotedIn(live, id, up), used)
  {
    if id in db.devices {
      AgreesUpdate(db, live, used, id, Voted(db.devices[id], up), VotedIn(live, id, up));
    } else {
      assert VotedIn(live, id, up) == live;
    }
  }

  lemma VerifyKeeps(db: Database, live: seq<Device>, used: set<Id>, id: Id)
    requires Agrees(db, live, used) && Hashed(live)
    ensures Hashed(VerifiedIn(live, id)) && Agrees(AfterVerify(db, id), VerifiedIn(live, id), used)
  {
    if id in db.devices {
      AgreesUpdate(db, live, used, id, db.devices[id].(verified := true), VerifiedIn(live, id));
    } else {
      assert VerifiedIn(live, id) == live;
    }
  }

  /** What the loader finds under a hash is the oldest live device with that hash. */
  lemma LoaderFinds(db: Database, live: seq<Device>, used: set<Id>, hash: Hash)
    requires Agrees(db, live, used)
    ensures var ids, same := Ids(db.index, ByHash(hash)), Select(live, ByHash(hash));
      && (ids == [] <==> same == [])
      && (ids != [] ==> ids[0] in db.devices && db.devices[ids[0]] == same[0])
  {
    var ids := Ids(db.index, ByHash(hash));
    assert Exact(db, live, ByHash(hash));
    ResolveSelected(db.devices, live, ByHash(hash));
    if ids != [] {
      SelectedAreLive(live, ByHash(hash), ids[0]);
      FirstResolved(db.devices, ids);
    }
  }

  lemma OpKeeps(db: Database, live: seq<Device>, used: set<Id>, op: Op)
    requires Agrees(db, live, used) && Hashed(live) && Simple(live, used, op)
    ensures Hashed(NextLive(live, op)) && Agrees(Apply(db, op), NextLive(live, op), NowUsed(live, used, op))
  {
    match op {
      case Add(d) => AgreesAdd(db, live, used, d);
      case Remove(id) => RemoveKeeps(db, live, used, id);
      case Vote(id, up) => VoteKeeps(db, live, used, id, up);
      case Verify(id) => VerifyKeeps(db, live, used, id);
      case Load(d) =>
        LoaderFinds(db, live, used, d.hash);
        if Enters(live, op) {
          AgreesAdd(db, live, used, d);
        }
    }
  }

  lemma {:induction false} AlwaysAgrees(h: seq<Op>)
    requires Plain(h)
    ensures Hashed(Live(h)) && Agrees(After(h), Live(h), Used(h))
    decreases |h|
  {
    if h == [] {
      assert forall q: Query :: Ids(EMPTY.index, q) == [];
    } else {
      var before := h[..|h| - 1];
      AlwaysAgrees(before);
      OpKeeps(After(before), Live(before), Used(before), h[|h| - 1]);
    }
  }

  // ---------- Lookups ----------

  lemma {:induction false} ResolveAppend(devices: map<Id, Device>, a: seq<Id>, b: seq<Id>)
    ensures Resolve(devices, a + b) == Resolve(devices, a) + Resolve(devices, b)
    decreases |b|
  {
    if b == [] {
      assert a + b == a;
    } else {
      assert (a + b)[..|a + b| - 1] == a + b[..|b| - 1];
      ResolveAppend(devices, a, b[..|b| - 1]);
    }
  }

  lemma {:induction false} ResolveKept(devices: map<Id, Device>, ids: seq<Id>)
    ensures Resolve(devices, ids) == Resolve(devices, Keep(ids, devices.Keys))
    decreases |ids|
  {
    if ids != [] {
      var front, last := ids[..|ids| - 1], ids[|ids| - 1];
      ResolveKept(devices, front);
      if last in devices {
        assert Keep(ids, devices.Keys) == Keep(front, devices.Keys) + [last];
        assert (Keep(front, devices.Keys) + [last])[..|Keep(front, devices.Keys)|] == Keep(front, devices.Keys);
      } else {
        assert Keep(ids, devices.Keys) == Keep(front, devices.Keys);
      }
    }
  }

  lemma {:induction false} ResolveRepeat(devices: map<Id, Device>, id: Id, n: nat)
    requires id in devices
    ensures Resolve(devices, Repeat(id, n)) == Repeat(devices[id], n)
  {
    if n > 0 {
      assert Repeat(id, n)[..n - 1] == Repeat(id, n - 1);
      ResolveRepeat(devices, id, n - 1);
      RepeatOneMore(devices[id], n - 1);
    }
  }

  lemma {:induction false} ResolveSelected(devices: map<Id, Device>, live: seq<Device>, q: Query)
    requires forall i :: 0 <= i < |live| ==> live[i].id in devices && devices[live[i].id] == live[i]
    ensures Resolve(devices, SelectIds(live, q)) == Select(live, q)
    decreases |live|
  {
    if live != [] {
      var front, last := live[..|live| - 1], live[|live| - 1];
      ResolveSelected(devices, front, q);
      ResolveAppend(devices, SelectIds(front, q), Repeat(last.id, Times(last, q)));
      ResolveRepeat(devices, last.id, Times(last, q));
    }
  }

  /**
   After any history without merging, a lookup by platform or codec gives exactly the live devices
   that answer it, in the order in which they were added, once per platform and once per listing of
   the codec, although codec entries are never removed.
   */
  lemma LookupIsScan(h: seq<Op>, q: Query)
    requires Plain(h)
    ensures Lookup(After(h), q) == Select(Live(h), q)
  {
    AlwaysAgrees(h);
    var db := After(h);
    assert Exact(db, Live(h), q);
    ResolveKept(db.devices, Ids(db.index, q));
    ResolveSelected(db.devices, Live(h), q);
  }

  /** The device at `i` is the first that answers the query. */
  predicate IsFirst(live: seq<Device>, q: Query, i: int) {
    0 <= i < |live| && Times(live[i], q) > 0 && forall j :: 0 <= j < i ==> Times(live[j], q) == 0
  }

  lemma {:induction false} FirstSelected(live: seq<Device>, q: Query) returns (i: nat)
    requires Select(live, q) != []
    ensures IsFirst(live, q, i) && live[i] == Select(live, q)[0]
    decreases |live|
  {
    var front := live[..|live| - 1];
    if Select(front, q) != [] {
      i := FirstSelected(front, q);
      FirstOfFront(live, q, i);
    } else {
      i := |live| - 1;
      OnlyLast(live, q);
    }
  }

  lemma FirstOfFront(live: seq<Device>, q: Query, i: int)
    requires live != [] && IsFirst(live[..|live| - 1], q, i)
    ensures IsFirst(live, q, i) && live[..|live| - 1][i] == live[i]
  {
    assert forall j :: 0 <= j <= i ==> live[..|live| - 1][j] == live[j];
  }

  lemma OnlyLast(live: seq<Device>, q: Query)
    requires live != [] && Select(live, q) != [] && Select(live[..|live| - 1], q) == []
    ensures IsFirst(live, q, |live| - 1) && live[|live| - 1] == Select(live, q)[0]
  {
    forall j | 0 <= j < |live| - 1 ensures Times(live[j], q) == 0 {
      NotSelected(live[..|live| - 1], q, j);
    }
  }

  lemma {:induction false} NotSelected(live: seq<Device>, q: Query, j: nat)
    requires j < |live| && Select(live, q) == []
    ensures Times(live[j], q) == 0
    decreases |live|
  {
    if j < |live| - 1 {
      NotSelected(live[..|live| - 1], q, j);
    } else {
      assert |Repeat(live[j], Times(live[j], q))| == Times(live[j], q);
    }
  }

  /** The hash of a live device finds the oldest live device with that hash; any other hash finds nothing. */
  lemma HashFindsOldest(h: seq<Op>, hash: Hash)
    requires Plain(h)
    ensures match LookupHash(After(h), hash)
      case None => forall i :: 0 <= i < |Live(h)| ==> Live(h)[i].hash != hash
      case Some(d) => exists i :: 0 <= i < |Live(h)| && Live(h)[i] == d && d.hash == hash &&
                        forall j :: 0 <= j < i ==> Live(h)[j].hash != hash
  {
    var db, live, q := After(h), Live(h), ByHash(hash);
    AlwaysAgrees(h);
    LookupIsScan(h, q);
    assert Exact(db, live, q);
    var ids := Ids(db.index, q);
    if ids == [] {
      forall i | 0 <= i < |live| ensures live[i].hash != hash {
        assert Select(live, q) == [];
        NotSelected(live, q, i);
      }
    } else {
      SelectedAreLive(live, q, ids[0]);
      FirstResolved(db.devices, ids);
      var i := FirstSelected(live, q);
      forall j | 0 <= j < i ensures live[j].hash != hash {
        assert Times(live[j], q) == 0;
      }
    }
  }

  lemma {:induction false} FirstResolved(devices: map<Id, Device>, ids: seq<Id>)
    requires ids != [] && ids[0] in devices
    ensures Resolve(devices, ids) != [] && Resolve(devices, ids)[0] == devices[ids[0]]
    decreases |ids|
  {
    if |ids| > 1 {
      FirstResolved(devices, ids[..|ids| - 1]);
    } else {
      assert ids[..0] == [];
    }
  }

  // ---------- With the loader ----------

  /** Each device is listed under its own hash, platform and codecs. */
  ghost predicate Complete(db: Database) {
    forall id :: id in db.devices ==>
      && db.devices[id].id == id
      && (db.devices[id].hash.text != "" ==> id in Ids(db.index, ByHash(db.devices[id].hash)))
      && id in Ids(db.index, ByPlatform(Lowered(db.devices[id].platform)))
      && forall i :: 0 <= i < |db.devices[id].videoCodecs| ==>
           id in Ids(db.index, ByCodec(Lowered(db.devices[id].videoCodecs[i])))
  }

  lemma {:induction false} AddCodecsKeeps(index: map<Query, seq<Id>>, codecs: seq<string>, id: Id, q: Query)
    ensures Ids(index, q) <= Ids(AddCodecs(index, codecs, id), q)
    decreases |codecs|
  {
    if codecs != [] {
      AddCodecsKeeps(index, codecs[..|codecs| - 1], id, q);
    }
  }

  lemma {:induction false} AddCodecsLists(index: map<Query, seq<Id>>, codecs: seq<string>, id: Id, i: nat)
    requires i < |codecs|
    ensures id in Ids(AddCodecs(index, codecs, id), ByCodec(Lowered(codecs[i])))
    decreases |codecs|
  {
    if i < |codecs| - 1 {
      AddCodecsLists(index, codecs[..|codecs| - 1], id, i);
    }
  }

  lemma IndexedKeeps(index: map<Query, seq<Id>>, d: Device, q: Query, id: Id)
    requires id in Ids(index, q) ||
             (id == d.id && (q == ByPlatform(Lowered(d.platform)) || (q == ByHash(d.hash) && d.hash.text != "")))
    ensures id in Ids(Indexed(index, d), q)
  {
    var hashed := if d.hash.text != "" then AddEntry(index, ByHash(d.hash), d.id) else index;
    var start := AddEntry(hashed, ByPlatform(Lowered(d.platform)), d.id);
    assert id in Ids(start, q);
    AddCodecsKeeps(start, d.videoCodecs, d.id, q);
    var k :| 0 <= k < |Ids(start, q)| && Ids(start, q)[k] == id;
    assert Ids(AddCodecs(start, d.videoCodecs, d.id), q)[k] == id;
  }

  lemma IndexedLists(index: map<Query, seq<Id>>, d: Device, i: nat)
    requires i < |d.videoCodecs|
    ensures d.id in Ids(Indexed(index, d), ByCodec(Lowered(d.videoCodecs[i])))
  {
    var hashed := if d.hash.text != "" then AddEntry(index, ByHash(d.hash), d.id) else index;
    AddCodecsLists(AddEntry(hashed, ByPlatform(Lowered(d.platform)), d.id), d.videoCodecs, d.id, i);
  }

  lemma AddCompletes(db: Database, d: Device)
    requires Complete(db)
    ensures Complete(AfterAdd(db, d))
  {
    var next := AfterAdd(db, d);
    forall id | id in next.devices
      ensures next.devices[id].id == id
      ensures next.devices[id].hash.text != "" ==> id in Ids(next.index, ByHash(next.devices[id].hash))
      ensures id in Ids(next.index, ByPlatform(Lowered(next.devices[id].platform)))
      ensures forall i :: 0 <= i < |next.devices[id].videoCodecs| ==>
                id in Ids(next.index, ByCodec(Lowered(next.devices[id].videoCodecs[i])))
    {
      IndexedKeeps(db.index, d, ByPlatform(Lowered(next.devices[id].platform)), id);
      if next.devices[id].hash.text != "" {
        IndexedKeeps(db.index, d, ByHash(next.devices[id].hash), id);
      }
      forall i | 0 <= i < |next.devices[id].videoCodecs|
        ensures id in Ids(next.index, ByCodec(Lowered(next.devices[id].videoCodecs[i])))
      {
        if id == d.id {
          IndexedLists(db.index, d, i);
        } else {
          IndexedKeeps(db.index, d, ByCodec(Lowered(next.devices[id].videoCodecs[i])), id);
        }
      }
    }
  }

  lemma {:induction false} RemoveFirstKeeps(ids: seq<Id>, id: Id, other: Id)
    requires other in ids && other != id
    ensures other in RemoveFirst(ids, id)
    decreases |ids|
  {
    if ids[0] != id && ids[0] != other {
      RemoveFirstKeeps(ids[1..], id, other);
    }
  }

  lemma DropKeeps(index: map<Query, seq<Id>>, q: Query, id: Id, at: Query, other: Id)
    requires other in Ids(index, at) && other != id
    ensures other in Ids(DropEntry(index, q, id), at)
  {
    if q == at && id in Ids(index, q) {
      RemoveFirstKeeps(index[q], id, other);
    }
  }

  lemma RemoveKeepsEntry(db: Database, id: Id, at: Query, other: Id)
    requires id in db.devices && other in Ids(db.index, at) && other != id
    ensures other in Ids(AfterRemove(db, id).index, at)
  {
    var d := db.devices[id];
    DropKeeps(db.index, ByHash(d.hash), id, at, other);
    var hashed := if d.hash.text != "" then DropEntry(db.index, ByHash(d.hash), id) else db.index;
    DropKeeps(hashed, ByPlatform(Lowered(d.platform)), id, at, other);
  }

  lemma RemoveCompletes(db: Database, id: Id)
    requires Complete(db) && id in db.devices
    ensures Complete(AfterRemove(db, id))
  {
    var next := AfterRemove(db, id);
    forall k | k in next.devices
      ensures next.devices[k].hash.text != "" ==> k in Ids(next.index, ByHash(next.devices[k].hash))
      ensures k in Ids(next.index, ByPlatform(Lowered(next.devices[k].platform)))
      ensures forall i :: 0 <= i < |next.devices[k].videoCodecs| ==>
                k in Ids(next.index, ByCodec(Lowered(next.devices[k].videoCodecs[i])))
    {
      RemoveKeepsEntry(db, id, ByPlatform(Lowered(db.devices[k].platform)), k);
      if db.devices[k].hash.text != "" {
        RemoveKeepsEntry(db, id, ByHash(db.devices[k].hash), k);
      }
      forall i | 0 <= i < |next.devices[k].videoCodecs|
        ensures k in Ids(next.index, ByCodec(Lowered(next.devices[k].videoCodecs[i])))
      {
        RemoveKeepsEntry(db, id, ByCodec(Lowered(db.devices[k].videoCodecs[i])), k);
      }
    }
  }

  /** Whatever is added, loaded, merged and removed, no live device is missing from its lookups. */
  lemma {:induction false} AlwaysComplete(h: seq<Op>)
    ensures Complete(After(h))
    decreases |h|
  {
    if h != [] {
      var db := After(h[..|h| - 1]);
      AlwaysComplete(h[..|h| - 1]);
      match h[|h| - 1] {
        case Add(d) => AddCompletes(db, d);
        case Remove(id) => if id in db.devices { RemoveCompletes(db, id); }
        case Vote(id, up) =>
        case Verify(id) =>
        case Load(d) =>
          AddCompletes(db, d);
          var ids := Ids(db.index, ByHash(d.hash));
          if ids != [] && ids[0] in db.devices {
            AddCompletes(db, Merged(d, db.devices[ids[0]]));
          }
      }
    }
  }

  lemma AfterSnoc(h: seq<Op>, op: Op)
    ensures After(h + [op]) == Apply(After(h), op)
  {
    assert (h + [op])[..|h|] == h;
  }
}
