/**
 Lookups by hash over histories in which the loader merges devices: when they miss a device that is
 there, when they find one with another hash, and, for each operation, whether it is to blame.
 */
module CuratedHashes {
  import opened Options
  import opened CuratedIndex
  import opened CuratedTheorems

  function Listed(db: Database, hash: Hash): seq<Id> {
    Ids(db.index, ByHash(hash))
  }

  // ---------- Writing ----------

  /** The device that an operation puts into the database and the indexes. */
  function Written(db: Database, op: Op): Option<Device> {
    match op
    case Add(d) => Some(d)
    case Load(d) =>
      var ids := Listed(db, d.hash);
      if ids == [] || ids[0] !in db.devices then Some(d)
      else
        var existing := db.devices[ids[0]];
        if d.verified || d.votesUp > existing.votesUp then Some(Merged(d, existing)) else None
    case _ => None
  }

  lemma ListedAfterAdd(db: Database, w: Device, hash: Hash)
    ensures Listed(AfterAdd(db, w), hash) == Listed(db, hash) + if hash == w.hash && hash.text != "" then [w.id] else []
  {
    var hashed := if w.hash.text != "" then AddEntry(db.index, ByHash(w.hash), w.id) else db.index;
    CodecEntries(AddEntry(hashed, ByPlatform(Lowered(w.platform)), w.id), w.videoCodecs, w.id, ByHash(hash));
    assert Repeat(w.id, 0) == [];
  }

  /** The first id listed under the hash once the live device `id` is removed. */
  function FirstAfterRemove(db: Database, id: Id, hash: Hash): Option<Id>
    requires id in db.devices
  {
    var ids := Listed(db, hash);
    if ids == [] then None
    else if ids[0] != id || hash != db.devices[id].hash || hash.text == "" then Some(ids[0])
    else if |ids| == 1 then None
    else Some(ids[1])
  }

  /** The first id of a list, which is what a lookup looks at. */
  function First(ids: seq<Id>): Option<Id> {
    if ids == [] then None else Some(ids[0])
  }

  lemma FirstIsAfterRemove(db: Database, id: Id, hash: Hash)
    requires id in db.devices
    ensures First(Listed(AfterRemove(db, id), hash)) == FirstAfterRemove(db, id, hash)
  {
    if db.devices[id].hash.text != "" {
      RemovedIds(db, id, ByHash(hash));
    }
  }

  lemma FirstAfterAdd(db: Database, w: Device, hash: Hash)
    ensures First(Listed(AfterAdd(db, w), hash)) ==
            if Listed(db, hash) != [] then Some(Listed(db, hash)[0])
            else if hash == w.hash && hash.text != "" then Some(w.id)
            else None
  {
    ListedAfterAdd(db, w, hash);
  }

  // ---------- The wrong device ----------

  /** Whatever a lookup finds has the hash asked for. */
  ghost predicate LookupsRight(db: Database) {
    forall hash :: FoundRight(db, hash)
  }

  predicate FoundRight(db: Database, hash: Hash) {
    LookupHash(db, hash).Some? ==> LookupHash(db, hash).value.hash == hash
  }

  /** The id of the device is the first one listed under another hash. */
  ghost predicate FirstElsewhere(db: Database, w: Device) {
    exists hash :: hash != w.hash && First(Listed(db, hash)) == Some(w.id)
  }

  /** Behind the device, under its hash, stands a live one that has another hash. */
  predicate HidesWrong(db: Database, id: Id)
    requires id in db.devices
  {
    var hash := db.devices[id].hash;
    var next := FirstAfterRemove(db, id, hash);
    next.Some? && next.value != id && next.value in db.devices && db.devices[next.value].hash != hash
  }

  /** A written device is found under a hash that it does not have iff its id is the first one there. */
  lemma LookupsRightAfterWriteIff(db: Database, w: Device)
    requires LookupsRight(db)
    ensures LookupsRight(AfterAdd(db, w)) <==> !FirstElsewhere(db, w)
  {
    var next := AfterAdd(db, w);
    if FirstElsewhere(db, w) {
      var hash :| hash != w.hash && First(Listed(db, hash)) == Some(w.id);
      FirstAfterAdd(db, w, hash);
      assert LookupHash(next, hash) == Some(w);
      assert !FoundRight(next, hash);
    } else {
      forall hash
        ensures FoundRight(next, hash)
      {
        FirstAfterAdd(db, w, hash);
        assert FoundRight(db, hash);
      }
    }
  }

  /** A removal lets a lookup find the wrong device iff one stands behind the removed device. */
  lemma LookupsRightAfterRemoveIff(db: Database, id: Id)
    requires LookupsRight(db) && id in db.devices
    ensures LookupsRight(AfterRemove(db, id)) <==> !HidesWrong(db, id)
  {
    var next, own := AfterRemove(db, id), db.devices[id].hash;
    FirstIsAfterRemove(db, id, own);
    if !HidesWrong(db, id) {
      forall hash
        ensures FoundRight(next, hash)
      {
        FirstIsAfterRemove(db, id, hash);
        assert FoundRight(db, hash);
      }
    } else {
      assert !FoundRight(next, own);
    }
  }

  /** The step lets no lookup find the wrong device. */
  ghost predicate RightStep(db: Database, op: Op) {
    && (Written(db, op).Some? ==> !FirstElsewhere(db, Written(db, op).value))
    && (op.Remove? && op.id in db.devices ==> !HidesWrong(db, op.id))
  }

  lemma SameHashes(db: Database, next: Database)
    requires next.index == db.index && next.devices.Keys == db.devices.Keys
    requires forall id :: id in db.devices ==> next.devices[id].hash == db.devices[id].hash
    ensures LookupsRight(db) ==> LookupsRight(next)
    ensures LookupsFind(db) ==> LookupsFind(next)
  {
    assert forall hash :: FoundRight(db, hash) ==> FoundRight(next, hash);
    assert forall hash :: LookupHash(db, hash).Some? ==> LookupHash(next, hash).Some?;
  }

  lemma RightStepIff(db: Database, op: Op)
    requires LookupsRight(db)
    ensures LookupsRight(Apply(db, op)) <==> RightStep(db, op)
  {
    match op {
      case Remove(id) =>
        if id in db.devices {
          LookupsRightAfterRemoveIff(db, id);
        }
      case Vote(id, up) => SameHashes(db, AfterVote(db, id, up));
      case Verify(id) => SameHashes(db, AfterVerify(db, id));
      case _ =>
        if Written(db, op).Some? {
          LookupsRightAfterWriteIff(db, Written(db, op).value);
        }
    }
  }

  /** After every operation of the run, no lookup finds the wrong device. */
  ghost predicate AlwaysRight(h: seq<Op>) {
    LookupsRight(After(h)) && (h != [] ==> AlwaysRight(h[..|h| - 1]))
  }

  ghost predicate OnlyRightSteps(h: seq<Op>) {
    h != [] ==> OnlyRightSteps(h[..|h| - 1]) && RightStep(After(h[..|h| - 1]), h[|h| - 1])
  }

  /**
   Throughout a run lookups find only devices with the hash asked for, iff no operation writes a device
   that stands first under another hash, and none removes a device that hides a wrong one.
   */
  lemma {:induction false} AlwaysRightIff(h: seq<Op>)
    ensures AlwaysRight(h) <==> OnlyRightSteps(h)
    decreases |h|
  {
    if h == [] {
      assert forall hash :: Listed(EMPTY, hash) == [];
    } else {
      AlwaysRightIff(h[..|h| - 1]);
      if AlwaysRight(h[..|h| - 1]) {
        RightStepIff(After(h[..|h| - 1]), h[|h| - 1]);
      }
    }
  }

  /** It happens: a device is loaded again under its id with another hash, and the old hash finds it. */
  lemma FoundUnderOldHash(d: Device, other: Hash)
    requires d.hash.text != "" && other.text != "" && other != d.hash
    ensures LookupHash(After([Load(d), Load(d.(hash := other))]), d.hash) == Some(d.(hash := other))
  {
    var again := d.(hash := other);
    AfterSnoc([], Load(d));
    AfterSnoc([Load(d)], Load(again));
    assert [] + [Load(d)] == [Load(d)] && [Load(d)] + [Load(again)] == [Load(d), Load(again)];
    ListedAfterAdd(EMPTY, d, d.hash);
    ListedAfterAdd(EMPTY, d, other);
    ListedAfterAdd(AfterAdd(EMPTY, d), again, d.hash);
  }

  /**
   And so does a removal. Two devices share a hash, the second is loaded again with another one, and
   the first is removed: its hash now finds the second.
   */
  lemma FoundAfterRemoval(a: Device, b: Device, other: Hash)
    requires a.hash == b.hash && a.id != b.id && a.hash.text != "" && other.text != "" && other != a.hash
    ensures var h := [Add(a), Add(b), Load(b.(hash := other)), Remove(a.id)];
      LookupHash(After(h), a.hash) == Some(b.(hash := other))
  {
    var again := b.(hash := other);
    var both := AfterAdd(AfterAdd(EMPTY, a), b);
    var loaded := AfterAdd(both, again);
    ListedTwice(a, b, other);
    BehindFirst(both, a, again);
    LoadedThenRemoved(a, b, again);
    assert AfterLoad(both, again) == loaded;
  }

  /** With the first device of a listing gone, the second is first. */
  lemma BehindFirst(both: Database, a: Device, again: Device)
    requires a.id != again.id && a.hash.text != "" && again.hash != a.hash
    requires Listed(both, a.hash) == [a.id, again.id] && a.id in both.devices && both.devices[a.id] == a
    ensures Listed(AfterRemove(AfterAdd(both, again), a.id), a.hash) == [again.id]
  {
    ListedAfterAdd(both, again, a.hash);
    RemovedIds(AfterAdd(both, again), a.id, ByHash(a.hash));
  }

  lemma LoadedThenRemoved(a: Device, b: Device, again: Device)
    ensures After([Add(a), Add(b), Load(again), Remove(a.id)]) ==
            AfterRemove(AfterLoad(After([Add(a), Add(b)]), again), a.id)
  {
    AfterSnoc([Add(a), Add(b)], Load(again));
    AfterSnoc([Add(a), Add(b), Load(again)], Remove(a.id));
    assert [Add(a), Add(b)] + [Load(again)] == [Add(a), Add(b), Load(again)];
    assert [Add(a), Add(b), Load(again)] + [Remove(a.id)] == [Add(a), Add(b), Load(again), Remove(a.id)];
  }

  lemma ListedTwice(a: Device, b: Device, other: Hash)
    requires a.hash == b.hash && a.hash.text != "" && other != a.hash
    ensures var both := AfterAdd(AfterAdd(EMPTY, a), b);
      After([Add(a), Add(b)]) == both && Listed(both, a.hash) == [a.id, b.id] && Listed(both, other) == []
  {
    ListedAfterAdd(EMPTY, a, a.hash);
    ListedAfterAdd(EMPTY, a, other);
    ListedAfterAdd(AfterAdd(EMPTY, a), b, a.hash);
    ListedAfterAdd(AfterAdd(EMPTY, a), b, other);
    AfterSnoc([], Add(a));
    AfterSnoc([Add(a)], Add(b));
    assert [] + [Add(a)] == [Add(a)] && [Add(a)] + [Add(b)] == [Add(a), Add(b)];
  }

  // ---------- The missed device ----------

  /** The hash of every live device finds something. */
  ghost predicate LookupsFind(db: Database) {
    forall id :: id in db.devices && db.devices[id].hash.text != "" ==> LookupHash(db, db.devices[id].hash).Some?
  }

  /** The device comes under a hash whose first entry is dead, and not its own. */
  predicate BehindDead(db: Database, w: Device) {
    var first := First(Listed(db, w.hash));
    w.hash.text != "" && first.Some? && first.value !in db.devices && first.value != w.id
  }

  /** Another live device has a hash whose first entry is dead once `id` is removed. */
  ghost predicate Buries(db: Database, id: Id)
    requires id in db.devices
  {
    exists x :: x in db.devices && x != id && db.devices[x].hash.text != "" && BuriedBy(db, id, x)
  }

  predicate BuriedBy(db: Database, id: Id, x: Id)
    requires id in db.devices && x in db.devices
  {
    var first := FirstAfterRemove(db, id, db.devices[x].hash);
    first.Some? && (first.value == id || first.value !in db.devices)
  }

  /** A written device is missed iff it comes behind a dead entry, and no other device is missed because of it. */
  lemma LookupsFindAfterWriteIff(db: Database, w: Device)
    requires LookupsFind(db)
    ensures LookupsFind(AfterAdd(db, w)) <==> !BehindDead(db, w)
  {
    var next := AfterAdd(db, w);
    FirstAfterAdd(db, w, w.hash);
    if BehindDead(db, w) {
      assert LookupHash(next, next.devices[w.id].hash) == None;
    } else {
      forall id | id in next.devices && next.devices[id].hash.text != ""
        ensures LookupHash(next, next.devices[id].hash).Some?
      {
        FirstAfterAdd(db, w, next.devices[id].hash);
      }
    }
  }

  /** A removal makes lookups miss a device iff it leaves a dead entry in front of it. */
  lemma LookupsFindAfterRemoveIff(db: Database, id: Id)
    requires Complete(db) && LookupsFind(db) && id in db.devices
    ensures LookupsFind(AfterRemove(db, id)) <==> !Buries(db, id)
  {
    var next := AfterRemove(db, id);
    forall x | x in next.devices && next.devices[x].hash.text != ""
      ensures LookupHash(next, next.devices[x].hash).Some? <==> !BuriedBy(db, id, x)
    {
      FirstIsAfterRemove(db, id, db.devices[x].hash);
      StillListed(db, id, x);
    }
    if Buries(db, id) {
      var x :| x in db.devices && x != id && db.devices[x].hash.text != "" && BuriedBy(db, id, x);
      assert x in next.devices && LookupHash(next, next.devices[x].hash) == None;
    }
  }

  /** Another device is still listed under its hash after a removal. */
  lemma StillListed(db: Database, id: Id, x: Id)
    requires Complete(db) && id in db.devices && x in db.devices && x != id && db.devices[x].hash.text != ""
    ensures FirstAfterRemove(db, id, db.devices[x].hash).Some?
  {
    RemoveKeepsEntry(db, id, ByHash(db.devices[x].hash), x);
    FirstIsAfterRemove(db, id, db.devices[x].hash);
  }

  /** The step makes no lookup miss a device. */
  ghost predicate FindStep(db: Database, op: Op) {
    && (Written(db, op).Some? ==> !BehindDead(db, Written(db, op).value))
    && (op.Remove? && op.id in db.devices ==> !Buries(db, op.id))
  }

  lemma FindStepIff(db: Database, op: Op)
    requires Complete(db) && LookupsFind(db)
    ensures LookupsFind(Apply(db, op)) <==> FindStep(db, op)
  {
    match op {
      case Remove(id) =>
        if id in db.devices {
          LookupsFindAfterRemoveIff(db, id);
        }
      case Vote(id, up) => SameHashes(db, AfterVote(db, id, up));
      case Verify(id) => SameHashes(db, AfterVerify(db, id));
      case _ =>
        if Written(db, op).Some? {
          LookupsFindAfterWriteIff(db, Written(db, op).value);
        }
    }
  }

  /** After every operation of the run, the hash of every live device finds something. */
  ghost predicate AlwaysFound(h: seq<Op>) {
    LookupsFind(After(h)) && (h != [] ==> AlwaysFound(h[..|h| - 1]))
  }

  ghost predicate OnlyFindSteps(h: seq<Op>) {
    h != [] ==> OnlyFindSteps(h[..|h| - 1]) && FindStep(After(h[..|h| - 1]), h[|h| - 1])
  }

  /**
   Throughout a run no lookup misses a live device, iff no operation writes a device behind a dead
   entry, and none leaves a dead entry in front of another device.
   */
  lemma {:induction false} AlwaysFoundIff(h: seq<Op>)
    ensures AlwaysFound(h) <==> OnlyFindSteps(h)
    decreases |h|
  {
    if h != [] {
      var before := h[..|h| - 1];
      AlwaysFoundIff(before);
      if AlwaysFound(before) {
        AlwaysComplete(before);
        FindStepIff(After(before), h[|h| - 1]);
      }
    }
  }

  /** Whatever happened: the hash of a live device is missed iff the first id listed under it is dead. */
  lemma MissedIff(h: seq<Op>, id: Id)
    requires id in After(h).devices && After(h).devices[id].hash.text != ""
    ensures var db := After(h);
      var hash := db.devices[id].hash;
      Listed(db, hash) != [] && (LookupHash(db, hash) == None <==> Listed(db, hash)[0] !in db.devices)
  {
    AlwaysComplete(h);
  }

  /**
   It happens. A device is loaded, loaded again so that its hash entry doubles, removed, and loaded
   anew under another id: it is there, and its hash does not find it.
   */
  lemma HashLookupCanMiss(d: Device, other: Id)
    requires d.hash.text != "" && d.verified && other != d.id
    ensures var h := [Load(d), Load(d), Remove(d.id), Load(d.(id := other))];
      && After(h).devices == map[other := d.(id := other)]
      && LookupHash(After(h), d.hash) == None
  {
    var twice := AfterAdd(AfterAdd(EMPTY, d), d);
    var gone := AfterRemove(twice, d.id);
    ListedAfterAdd(EMPTY, d, d.hash);
    ListedAfterAdd(AfterAdd(EMPTY, d), d, d.hash);
    RemovedIds(twice, d.id, ByHash(d.hash));
    LoadTwice(d);
    var again := d.(id := other);
    ListedAfterAdd(gone, again, d.hash);
    AfterSnoc([Load(d), Load(d)], Remove(d.id));
    AfterSnoc([Load(d), Load(d), Remove(d.id)], Load(again));
    assert [Load(d), Load(d)] + [Remove(d.id)] == [Load(d), Load(d), Remove(d.id)];
    assert [Load(d), Load(d), Remove(d.id)] + [Load(again)] == [Load(d), Load(d), Remove(d.id), Load(again)];
  }

  lemma LoadTwice(d: Device)
    requires d.hash.text != "" && d.verified
    ensures After([Load(d), Load(d)]) == AfterAdd(AfterAdd(EMPTY, d), d)
  {
    ListedAfterAdd(EMPTY, d, d.hash);
    assert Merged(d, d) == d;
    AfterSnoc([], Load(d));
    AfterSnoc([Load(d)], Load(d));
    assert [] + [Load(d)] == [Load(d)];
    assert [Load(d)] + [Load(d)] == [Load(d), Load(d)];
  }

  // ---------- Exact lookups ----------

  /**
   In a run without such operations, merging included, a lookup by hash is exact: it finds a live
   device with the hash, and nothing only if there is none.
   */
  lemma HashLookupsExact(h: seq<Op>, hash: Hash)
    requires OnlyRightSteps(h) && OnlyFindSteps(h) && hash.text != ""
    ensures var db := After(h);
      match LookupHash(db, hash)
      case Some(d) => d.hash == hash && d.id in db.devices && db.devices[d.id] == d
      case None => forall id :: id in db.devices ==> db.devices[id].hash != hash
  {
    AlwaysRightIff(h);
    AlwaysFoundIff(h);
    AlwaysComplete(h);
    assert FoundRight(After(h), hash);
  }
}
