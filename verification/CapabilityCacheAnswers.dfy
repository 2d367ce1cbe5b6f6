/** What the capability cache answers, as a function of the calls made so far. */
module CapabilityCacheAnswers {
  import opened Options
  import opened CapabilityCache

  /** The latest Set of the device, unless it was deleted or evicted since. */
  function Remembered(h: seq<Call>, id: DeviceId): (k: Option<nat>)
    ensures k.Some? ==> StoresIt(h, k.value, id)
  {
    if h == [] then None
    else
      var n := |h| - 1;
      if StoresIt(h, n, id) then Some(n)
      else if h[n].op == Delete(id) || (Stores(h[n]) && id !in h[n].rest) then None
      else Remembered(h[..n], id)
  }

  /** The cache has the entry of that Set, unless DeleteExpired came after the time to live. */
  lemma {:induction false} EntryIsRemembered(c: Config, h: seq<Call>, id: DeviceId)
    requires IsRun(c, h)
    ensures match Remembered(h, id)
      case None => id !in Run(c, h)
      case Some(k) =>
        if id in Run(c, h)
        then Run(c, h)[id].capabilities == h[k].op.capabilities.value && Run(c, h)[id].expiresAt == h[k].now + c.ttl
        else h[k].now + c.ttl < h[|h| - 1].now
    decreases |h|
  {
    if h != [] && !StoresIt(h, |h| - 1, id) {
      EntryIsRemembered(c, h[..|h| - 1], id);
    }
  }

  /**
   After every run, Get answers what the latest Set of the device stored, until its time to live has
   passed, unless the device was deleted or evicted since; and nothing otherwise.
   */
  lemma GetAnswers(c: Config, h: seq<Call>, id: DeviceId, now: int)
    requires IsRun(c, h) && (h != [] ==> h[|h| - 1].now <= now)
    ensures Answer(Run(c, h), id, now) == match Remembered(h, id)
      case Some(k) => if now <= h[k].now + c.ttl then h[k].op.capabilities else None
      case None => None
  {
    EntryIsRemembered(c, h, id);
  }

  /**
   A device that was set is found until its time to live has passed, as long as fewer other devices
   than one eviction leaves have been stored or found since, and nothing newer is known of it.
   */
  lemma FoundWhileFewTouched(c: Config, h: seq<Call>, k: nat, id: DeviceId, now: int)
    requires IsRun(c, h) && c.capacity >= 1 && LastStored(h, k, id)
    requires |OthersSince(c, h, id, h[k].now)| < c.capacity - EvictCount(c.capacity)
    requires h[|h| - 1].now <= now <= h[k].now + c.ttl
    ensures Answer(Run(c, h), id, now) == h[k].op.capabilities
  {
    assert h[..k + 1][..k] == h[..k];
    forall j | k < j < |h|
      ensures h[j].now <= h[k].now + c.ttl
    {
      RunOrdered(c, h, j, |h| - 1);
    }
    KeptWhileFewTouched(c, h, k, id);
    var i := EntryIsLastStored(c, h, id);
    assert i == k;
  }

  /** DeleteExpired leaves exactly the entries whose time to live has not passed. */
  lemma SweepLeaves(c: Config, h: seq<Call>, id: DeviceId)
    requires IsRun(c, h) && h != [] && h[|h| - 1].op.DeleteExpired?
    ensures id in Run(c, h) <==>
            Remembered(h, id).Some? && h[|h| - 1].now <= h[Remembered(h, id).value].now + c.ttl
  {
    var before, now := h[..|h| - 1], h[|h| - 1].now;
    EntryIsRemembered(c, before, id);
    if before != [] && Remembered(before, id).Some? && id !in Run(c, before) {
      assert before[|before| - 1].now <= now;
    }
  }

  /** How often Get found the device from call `k` on. */
  function TimesFound(c: Config, h: seq<Call>, k: nat, id: DeviceId): nat
    decreases |h|
  {
    if |h| <= k then 0
    else
      var n := |h| - 1;
      TimesFound(c, h[..n], k, id) +
      if h[n].op == Get(id) && Answer(Run(c, h[..n]), id, h[n].now).Some? then 1 else 0
  }

  /** What else an entry records: where and when it was stored, and how often it was found since. */
  lemma {:induction false} EntryRecords(c: Config, h: seq<Call>, id: DeviceId)
    requires IsRun(c, h) && id in Run(c, h)
    ensures Remembered(h, id).Some?
    ensures var k, e := Remembered(h, id).value, Run(c, h)[id];
      && e.source == h[k].op.source && e.createdAt == h[k].now
      && e.accessCount == TimesFound(c, h, k, id)
    decreases |h|
  {
    var n := |h| - 1;
    EntryIsRemembered(c, h, id);
    if StoresIt(h, n, id) {
      assert TimesFound(c, h[..n], n, id) == 0;
    } else {
      EntryRecords(c, h[..n], id);
    }
  }
}
