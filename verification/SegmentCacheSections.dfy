/** The structure of the memory tier under every interleaving of its critical sections. */
module SegmentCacheSections {
  import opened SegmentCacheSpec

  /**
   The critical sections of the memory tier. getL1 takes the lock twice: it looks the entry up,
   and later moves it to the front. `Touch` is that later section, for an entry that may by then
   be anywhere in the list or no longer in it.
   */
  datatype Section =
    | Touch(at: nat)
    | Put(key: Key, data: Bytes, now: int)
    | Delete(key: Key)
    | Forget(mediaId: string)
    | Clean(now: int)

  function Enter(c: Config, m: Memory, x: Section): Memory {
    match x
    case Touch(at) => TouchMemory(m, at)
    case Put(key, data, now) => PutMemory(c, m, key, data, now)
    case Delete(key) => DeleteMemory(m, key)
    case Forget(mediaId) => ForgetMedia(m, mediaId)
    case Clean(now) => CleanMemory(m, now)
  }

  /** The memory tier after the critical sections `xs` of any number of goroutines, the latest last. */
  function Interleave(c: Config, xs: seq<Section>): Memory {
    if xs == [] then EMPTY.l1 else Enter(c, Interleave(c, xs[..|xs| - 1]), xs[|xs| - 1])
  }

  lemma EnterKeeps(c: Config, m: Memory, x: Section)
    requires Positive(c) && Structure(c, m)
    ensures Structure(c, Enter(c, m, x))
    ensures AllLive(m.nodes) && !x.Forget? ==> AllLive(Enter(c, m, x).nodes)
  {
    match x {
      case Touch(at) => TouchKeeps(c, m, at);
      case Put(key, data, now) => PutKeeps(c, m, key, data, now);
      case Delete(key) =>
        DeleteKeeps(c, m, key);
        CardinalitySubset(LiveKeys(DeleteMemory(m, key).nodes), LiveKeys(m.nodes));
        if |m.nodes| == 1 && |DeleteMemory(m, key).nodes| != 1 {
          assert DeleteMemory(m, key).nodes == [];
        }
      case Forget(mediaId) => ForgetKeeps(c, m, mediaId);
      case Clean(now) => CleanKeeps(c, m, now);
    }
  }

  /** The structure holds after every interleaving of critical sections. */
  lemma {:induction false} StructureAlways(c: Config, xs: seq<Section>)
    requires Positive(c)
    ensures Structure(c, Interleave(c, xs))
  {
    if xs != [] {
      StructureAlways(c, xs[..|xs| - 1]);
      EnterKeeps(c, Interleave(c, xs[..|xs| - 1]), xs[|xs| - 1]);
    }
  }

  /** As long as InvalidateMedia is not used, the map and the list hold the same entries. */
  lemma {:induction false} BijectionWithoutForget(c: Config, xs: seq<Section>)
    requires Positive(c)
    requires forall i :: 0 <= i < |xs| ==> !xs[i].Forget?
    ensures AllLive(Interleave(c, xs).nodes)
    ensures |LiveKeys(Interleave(c, xs).nodes)| == |Interleave(c, xs).nodes|
  {
    StructureAlways(c, xs);
    if xs != [] {
      BijectionWithoutForget(c, xs[..|xs| - 1]);
      StructureAlways(c, xs[..|xs| - 1]);
      EnterKeeps(c, Interleave(c, xs[..|xs| - 1]), xs[|xs| - 1]);
    }
    CountLive(Interleave(c, xs).nodes);
  }

  lemma {:induction false} CountLive(nodes: seq<Node>)
    requires AllLive(nodes) && OneOwner(nodes)
    ensures |LiveKeys(nodes)| == |nodes|
    decreases |nodes|
  {
    if nodes != [] {
      CountLive(nodes[1..]);
      assert nodes == [nodes[0]] + nodes[1..];
      LiveKeysOfCons(nodes[0], nodes[1..]);
    }
  }
}
