/** What becomes of votes and verification in the curated database, over whole histories, merging loads included. */
module CuratedVotes {
  import opened Options
  import opened Codec
  import opened CuratedIndex
  import opened CuratedTheorems
  import Spellings

  /** The operation is a load that finds its hash taken by the device `id`. */
  predicate Meets(db: Database, op: Op, id: Id) {
    op.Load? && LookupHash(db, op.device.hash).Some? && LookupHash(db, op.device.hash).value.id == id
  }

  /** The operation enters `id` as a new device, with the votes that it brings. */
  predicate BringsIn(db: Database, op: Op, id: Id) {
    (op.Add? || (op.Load? && LookupHash(db, op.device.hash) == None)) && op.device.id == id
  }

  predicate MeetsDevice(h: seq<Op>, i: nat, id: Id) {
    i < |h| && Meets(After(h[..i]), h[i], id)
  }

  predicate EntersAt(h: seq<Op>, i: nat, id: Id) {
    i < |h| && BringsIn(After(h[..i]), h[i], id)
  }

  /** The votes for the device after the operation at k. */
  function VotesAfter(h: seq<Op>, k: nat, id: Id, up: bool): nat
    decreases |h|
  {
    if |h| <= k + 1 then 0
    else VotesAfter(h[..|h| - 1], k, id, up) + if h[|h| - 1] == Vote(id, up) then 1 else 0
  }

  /** Someone has verified the device after the operation at k, or the loader met it with one that is verified. */
  predicate VerifiedAfter(h: seq<Op>, k: nat, id: Id) {
    exists i :: k < i < |h| && VerifiesAt(h, i, id)
  }

  ghost predicate UnderOwnIds(db: Database) {
    forall id :: id in db.devices ==> db.devices[id].id == id
  }

  lemma {:induction false} AlwaysUnderOwnIds(h: seq<Op>)
    ensures UnderOwnIds(After(h))
    decreases |h|
  {
    if h != [] {
      AlwaysUnderOwnIds(h[..|h| - 1]);
    }
  }

  /** The tally of the device is what the operation at k brought, and every vote since. */
  predicate Tallied(h: seq<Op>, k: nat, id: Id, d: Device)
  {
    && EntersAt(h, k, id)
    && d.votesUp == h[k].device.votesUp + VotesAfter(h, k, id, true)
    && d.votesDown == h[k].device.votesDown + VotesAfter(h, k, id, false)
    && (d.verified <==> h[k].device.verified || VerifiedAfter(h, k, id))
  }

  lemma EntersBefore(h: seq<Op>, k: nat, id: Id)
    requires k < |h| - 1
    ensures EntersAt(h[..|h| - 1], k, id) <==> EntersAt(h, k, id)
    ensures MeetsDevice(h[..|h| - 1], k, id) <==> MeetsDevice(h, k, id)
  {
    assert h[..|h| - 1][..k] == h[..k];
  }

  /** Someone verifies the device at i, or the loader meets it with one that is verified. */
  predicate VerifiesAt(h: seq<Op>, i: nat, id: Id) {
    i < |h| && (h[i] == Verify(id) || (MeetsDevice(h, i, id) && h[i].device.verified))
  }

  lemma VerifiedBefore(h: seq<Op>, k: nat, id: Id)
    requires k < |h| - 1
    ensures VerifiedAfter(h, k, id) <==> VerifiedAfter(h[..|h| - 1], k, id) || VerifiesAt(h, |h| - 1, id)
  {
    var n := |h| - 1;
    forall i | 0 <= i < n
      ensures VerifiesAt(h[..n], i, id) <==> VerifiesAt(h, i, id)
    {
      EntersBefore(h, i, id);
    }
  }

  /**
   After every history: a device has the votes that it was entered with and all that were cast for it
   since, and is verified iff it came verified or was verified since. A load that meets it keeps them.
   */
  lemma {:induction false} VotesAreCounted(h: seq<Op>, id: Id) returns (k: nat)
    requires id in After(h).devices
    ensures Tallied(h, k, id, After(h).devices[id])
    decreases |h|
  {
    var n := |h| - 1;
    if EntersAt(h, n, id) {
      k := n;
    } else {
      StepKeepsTally(h, id);
      k := VotesAreCounted(h[..n], id);
      EntersBefore(h, k, id);
      VerifiedBefore(h, k, id);
    }
  }

  /** What one operation may do to the tally of a device that it does not enter. */
  predicate KeepsTally(was: Device, op: Op, now: Device, met: bool) {
    && now.votesUp == was.votesUp + (if op == Vote(was.id, true) then 1 else 0)
    && now.votesDown == was.votesDown + (if op == Vote(was.id, false) then 1 else 0)
    && (now.verified <==> was.verified || op == Verify(was.id) || (met && op.Load? && op.device.verified))
  }

  lemma LoadKeepsTally(db: Database, d: Device, id: Id)
    requires UnderOwnIds(db) && id in AfterLoad(db, d).devices && (d.id == id ==> LookupHash(db, d.hash).Some?)
    ensures id in db.devices
    ensures var found := LookupHash(db, d.hash);
      KeepsTally(db.devices[id], Load(d), AfterLoad(db, d).devices[id], found.Some? && found.value.id == id)
  {
  }

  lemma OpKeepsTally(db: Database, op: Op, id: Id)
    requires UnderOwnIds(db) && id in Apply(db, op).devices && !BringsIn(db, op, id)
    ensures id in db.devices && db.devices[id].id == id
    ensures KeepsTally(db.devices[id], op, Apply(db, op).devices[id], Meets(db, op, id))
  {
    match op {
      case Load(d) => LoadKeepsTally(db, d, id);
      case _ =>
    }
  }

  lemma StepKeepsTally(h: seq<Op>, id: Id)
    requires h != [] && id in After(h).devices && !EntersAt(h, |h| - 1, id)
    ensures id in After(h[..|h| - 1]).devices && After(h[..|h| - 1]).devices[id].id == id
    ensures KeepsTally(After(h[..|h| - 1]).devices[id], h[|h| - 1], After(h).devices[id], MeetsDevice(h, |h| - 1, id))
  {
    AlwaysUnderOwnIds(h[..|h| - 1]);
    OpKeepsTally(After(h[..|h| - 1]), h[|h| - 1], id);
  }

  /**
   A load that finds its hash taken: the device there is replaced, under its own id and with its own
   tally, if the new one is verified or brings more votes. Nothing else changes.
   */
  lemma LoadMeets(h: seq<Op>, d: Device)
    requires LookupHash(After(h), d.hash).Some?
    ensures var x, after := LookupHash(After(h), d.hash).value, After(h + [Load(d)]).devices;
      after == if d.verified || d.votesUp > x.votesUp
               then After(h).devices[x.id := Device(x.id, d.hash, d.platform, d.videoCodecs,
                                                    x.votesUp, x.votesDown, x.verified || d.verified)]
               else After(h).devices
  {
    assert (h + [Load(d)])[..|h|] == h;
  }

  /** Devices stand in the listings of a platform or a codec under every spelling of it. */
  lemma LookupsIgnoreCase(h: seq<Op>, a: string, b: string)
    requires Spellings.SameLetters(a, b)
    ensures Lookup(After(h), ByPlatform(Lowered(a))) == Lookup(After(h), ByPlatform(Lowered(b)))
    ensures Lookup(After(h), ByCodec(Lowered(a))) == Lookup(After(h), ByCodec(Lowered(b)))
  {
    Spellings.LoweredIff(a, b);
  }
}
