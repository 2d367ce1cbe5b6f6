/**
 The curated device database: devices by id, and three indexes from hash, platform and video codec
 to ids. The indexes are compared with a list of the live devices in insertion order, which the
 program does not have.

 An id is what generateDeviceID makes of a device and the time; it is taken to be new. The hash is
 what generateDeviceHash makes of a device, and is never empty.
 */
module CuratedIndex {
  import opened Options
  import opened Codec

  datatype Id = Id(text: string)

  datatype Hash = Hash(text: string)

  datatype Device = Device(
    id: Id, hash: Hash, platform: string, videoCodecs: seq<string>,
    votesUp: int, votesDown: int, verified: bool)

  /** A key of one of the three indexes. Platforms and codecs are indexed in lower case. */
  datatype Query = ByHash(hash: Hash) | ByPlatform(platform: Folded) | ByCodec(codec: Folded)

  function Lowered(s: string): Folded {
    Folded(ToLower(s))
  }

  datatype Database = Database(devices: map<Id, Device>, index: map<Query, seq<Id>>)

  const EMPTY := Database(map[], map[])

  function Ids(index: map<Query, seq<Id>>, q: Query): seq<Id> {
    if q in index then index[q] else []
  }

  function AddEntry(index: map<Query, seq<Id>>, q: Query, id: Id): map<Query, seq<Id>> {
    index[q := Ids(index, q) + [id]]
  }

  function AddCodecs(index: map<Query, seq<Id>>, codecs: seq<string>, id: Id): map<Query, seq<Id>> {
    if codecs == [] then index
    else AddEntry(AddCodecs(index, codecs[..|codecs| - 1], id), ByCodec(Lowered(codecs[|codecs| - 1])), id)
  }

  /** updateIndexes */
  function Indexed(index: map<Query, seq<Id>>, d: Device): map<Query, seq<Id>> {
    var hashed := if d.hash.text != "" then AddEntry(index, ByHash(d.hash), d.id) else index;
    AddCodecs(AddEntry(hashed, ByPlatform(Lowered(d.platform)), d.id), d.videoCodecs, d.id)
  }

  function RemoveFirst(ids: seq<Id>, id: Id): seq<Id> {
    if ids == [] then [] else if ids[0] == id then ids[1..] else [ids[0]] + RemoveFirst(ids[1..], id)
  }

  function DropEntry(index: map<Query, seq<Id>>, q: Query, id: Id): map<Query, seq<Id>> {
    if id in Ids(index, q) then index[q := RemoveFirst(Ids(index, q), id)] else index
  }

  // ---------- Operations ----------

  function AfterAdd(db: Database, d: Device): Database {
    Database(db.devices[d.id := d], Indexed(db.index, d))
  }

  /** RemoveDevice: the hash and platform entries go, the codec entries stay. */
  function AfterRemove(db: Database, id: Id): Database {
    if id !in db.devices then db
    else
      var d := db.devices[id];
      var hashed := if d.hash.text != "" then DropEntry(db.index, ByHash(d.hash), id) else db.index;
      Database(db.devices - {id}, DropEntry(hashed, ByPlatform(Lowered(d.platform)), id))
  }

  function Voted(d: Device, up: bool): Device {
    if up then d.(votesUp := d.votesUp + 1) else d.(votesDown := d.votesDown + 1)
  }

  function AfterVote(db: Database, id: Id, up: bool): Database {
    if id in db.devices then db.(devices := db.devices[id := Voted(db.devices[id], up)]) else db
  }

  function AfterVerify(db: Database, id: Id): Database {
    if id in db.devices then db.(devices := db.devices[id := db.devices[id].(verified := true)]) else db
  }

  /** What the loader makes of a device whose hash is taken by `existing`. */
  function Merged(d: Device, existing: Device): Device {
    d.(id := existing.id, votesUp := existing.votesUp, votesDown := existing.votesDown,
       verified := existing.verified || d.verified)
  }

  /** addDevice, for a device that has an id and a hash. */
  function AfterLoad(db: Database, d: Device): Database {
    var ids := Ids(db.index, ByHash(d.hash));
    if ids != [] && ids[0] in db.devices then
      var existing := db.devices[ids[0]];
      if d.verified || d.votesUp > existing.votesUp then AfterAdd(db, Merged(d, existing)) else db
    else AfterAdd(db, d)
  }

  /** GetByPlatform and GetByCodec: the devices of the ids that are still there. */
  function Resolve(devices: map<Id, Device>, ids: seq<Id>): seq<Device> {
    if ids == [] then []
    else Resolve(devices, ids[..|ids| - 1]) +
         if ids[|ids| - 1] in devices then [devices[ids[|ids| - 1]]] else []
  }

  function Lookup(db: Database, q: Query): seq<Device> {
    Resolve(db.devices, Ids(db.index, q))
  }

  /** GetByDeviceHash looks at the first id only. */
  function LookupHash(db: Database, hash: Hash): Option<Device> {
    var ids := Ids(db.index, ByHash(hash));
    if ids == [] || ids[0] !in db.devices then None else Some(db.devices[ids[0]])
  }

  // ---------- The database object ----------

  function Entry<K>(m: map<K, seq<Id>>, k: K): seq<Id> {
    if k in m then m[k] else []
  }

  class CuratedDatabase {
    var devices: map<Id, Device>
    var hashIndex: map<Hash, seq<Id>>
    var platformIndex: map<Folded, seq<Id>>
    var codecIndex: map<Folded, seq<Id>>
    ghost var db: Database

    /** `db` has the devices, and the three indexes as one. */
    ghost predicate Valid()
      reads this
    {
      && devices == db.devices
      && (forall h :: Ids(db.index, ByHash(h)) == Entry(hashIndex, h))
      && (forall p :: Ids(db.index, ByPlatform(p)) == Entry(platformIndex, p))
      && (forall c :: Ids(db.index, ByCodec(c)) == Entry(codecIndex, c))
    }

    constructor ()
      ensures Valid() && db == EMPTY
    {
      devices, hashIndex, platformIndex, codecIndex := map[], map[], map[], map[];
      db := EMPTY;
    }

    // The three appends of updateIndexes.

    method AppendHash(hash: Hash, id: Id)
      requires Valid()
      modifies this`hashIndex, this`db
      ensures Valid() && db == old(db).(index := AddEntry(old(db.index), ByHash(hash), id))
    {
      hashIndex := hashIndex[hash := Entry(hashIndex, hash) + [id]];
      db := db.(index := AddEntry(db.index, ByHash(hash), id));
    }

    method AppendPlatform(platform: Folded, id: Id)
      requires Valid()
      modifies this`platformIndex, this`db
      ensures Valid() && db == old(db).(index := AddEntry(old(db.index), ByPlatform(platform), id))
    {
      platformIndex := platformIndex[platform := Entry(platformIndex, platform) + [id]];
      db := db.(index := AddEntry(db.index, ByPlatform(platform), id));
    }

    method AppendCodec(codec: Folded, id: Id)
      requires Valid()
      modifies this`codecIndex, this`db
      ensures Valid() && db == old(db).(index := AddEntry(old(db.index), ByCodec(codec), id))
    {
      codecIndex := codecIndex[codec := Entry(codecIndex, codec) + [id]];
      db := db.(index := AddEntry(db.index, ByCodec(codec), id));
    }

    method AppendCodecs(codecs: seq<string>, id: Id)
      requires Valid()
      modifies this`codecIndex, this`db
      ensures Valid() && db == old(db).(index := AddCodecs(old(db.index), codecs, id))
    {
      for i := 0 to |codecs|
        invariant Valid() && db.devices == old(db.devices)
        invariant db.index == AddCodecs(old(db.index), codecs[..i], id)
      {
        AddOneMore(old(db.index), codecs, id, i);
        AppendCodec(Lowered(codecs[i]), id);
      }
      assert codecs[..|codecs|] == codecs;
    }

    method UpdateIndexes(d: Device)
      requires Valid()
      modifies this`hashIndex, this`platformIndex, this`codecIndex, this`db
      ensures Valid() && db == old(db).(index := Indexed(old(db.index), d))
    {
      if d.hash.text != "" {
        AppendHash(d.hash, d.id);
      }
      AppendPlatform(Lowered(d.platform), d.id);
      AppendCodecs(d.videoCodecs, d.id);
    }

    method AddDevice(d: Device)
      requires Valid()
      modifies this
      ensures Valid() && db == AfterAdd(old(db), d)
    {
      devices := devices[d.id := d];
      db := db.(devices := devices);
      UpdateIndexes(d);
    }

    /** The loop that both index removals use: the first occurrence is cut out. */
    static method CutFirst(ids: seq<Id>, id: Id) returns (found: bool, rest: seq<Id>)
      ensures found == (id in ids)
      ensures rest == if found then RemoveFirst(ids, id) else ids
    {
      for i := 0 to |ids|
        invariant id !in ids[..i]
      {
        if ids[i] == id {
          CutAt(ids, i);
          return true, ids[..i] + ids[i + 1..];
        }
      }
      return false, ids;
    }

    method CutHash(hash: Hash, id: Id)
      requires Valid()
      modifies this`hashIndex, this`db
      ensures Valid() && db == old(db).(index := DropEntry(old(db.index), ByHash(hash), id))
    {
      var found, rest := CutFirst(Entry(hashIndex, hash), id);
      if found {
        hashIndex := hashIndex[hash := rest];
      }
      db := db.(index := DropEntry(db.index, ByHash(hash), id));
    }

    method CutPlatform(platform: Folded, id: Id)
      requires Valid()
      modifies this`platformIndex, this`db
      ensures Valid() && db == old(db).(index := DropEntry(old(db.index), ByPlatform(platform), id))
    {
      var found, rest := CutFirst(Entry(platformIndex, platform), id);
      if found {
        platformIndex := platformIndex[platform := rest];
      }
      db := db.(index := DropEntry(db.index, ByPlatform(platform), id));
    }

    /** false is the error for an unknown id. */
    method RemoveDevice(id: Id) returns (ok: bool)
      requires Valid()
      modifies this
      ensures ok == (id in old(db.devices))
      ensures Valid() && db == AfterRemove(old(db), id)
    {
      if id !in devices {
        return false;
      }
      var d := devices[id];
      if d.hash.text != "" {
        CutHash(d.hash, id);
      }
      CutPlatform(Lowered(d.platform), id);
      devices := devices - {id};
      db := db.(devices := devices);
      return true;
    }

    method Vote(id: Id, up: bool) returns (ok: bool)
      requires Valid()
      modifies this`devices, this`db
      ensures ok == (id in old(db.devices))
      ensures Valid() && db == AfterVote(old(db), id, up)
    {
      ok := id in devices;
      if ok {
        devices := devices[id := Voted(devices[id], up)];
        db := db.(devices := devices);
      }
    }

    method MarkVerified(id: Id) returns (ok: bool)
      requires Valid()
      modifies this`devices, this`db
      ensures ok == (id in old(db.devices))
      ensures Valid() && db == AfterVerify(old(db), id)
    {
      ok := id in devices;
      if ok {
        devices := devices[id := devices[id].(verified := true)];
        db := db.(devices := devices);
      }
    }

    /** addDevice */
    method LoadDevice(d: Device)
      requires Valid()
      modifies this
      ensures Valid() && db == AfterLoad(old(db), d)
    {
      var existingIds := Entry(hashIndex, d.hash);
      if |existingIds| > 0 {
        var existingId := existingIds[0];
        if existingId in devices {
          var existing := devices[existingId];
          if d.verified || d.votesUp > existing.votesUp {
            AddDevice(Merged(d, existing));
          }
          return;
        }
      }
      AddDevice(d);
    }

    /** The loop of GetByPlatform and GetByCodec. */
    method Collect(ids: seq<Id>) returns (found: seq<Device>)
      ensures found == Resolve(devices, ids)
    {
      found := [];
      for i := 0 to |ids|
        invariant found == Resolve(devices, ids[..i])
      {
        assert ids[..i + 1][..i] == ids[..i];
        if ids[i] in devices {
          found := found + [devices[ids[i]]];
        }
      }
      assert ids[..|ids|] == ids;
    }

    method GetByPlatform(platform: string) returns (found: seq<Device>)
      requires Valid()
      ensures found == Lookup(db, ByPlatform(Lowered(platform)))
    {
      found := Collect(Entry(platformIndex, Lowered(platform)));
    }

    method GetByCodec(codec: string) returns (found: seq<Device>)
      requires Valid()
      ensures found == Lookup(db, ByCodec(Lowered(codec)))
    {
      found := Collect(Entry(codecIndex, Lowered(codec)));
    }

    method GetByDeviceHash(hash: Hash) returns (found: Option<Device>)
      requires Valid()
      ensures found == LookupHash(db, hash)
    {
      var ids := Entry(hashIndex, hash);
      if |ids| == 0 {
        return None;
      }
      return if ids[0] in devices then Some(devices[ids[0]]) else None;
    }
  }

  lemma AddOneMore(index: map<Query, seq<Id>>, codecs: seq<string>, id: Id, i: nat)
    requires i < |codecs|
    ensures AddCodecs(index, codecs[..i + 1], id) ==
            AddEntry(AddCodecs(index, codecs[..i], id), ByCodec(Lowered(codecs[i])), id)
  {
    assert codecs[..i + 1][..i] == codecs[..i];
  }

  lemma {:induction false} CutAt(ids: seq<Id>, i: nat)
    requires i < |ids| && ids[i] !in ids[..i]
    ensures RemoveFirst(ids, ids[i]) == ids[..i] + ids[i + 1..]
    decreases |ids|
  {
    if i > 0 {
      assert ids[1..][..i - 1] == ids[..i][1..];
      CutAt(ids[1..], i - 1);
    }
  }
}
