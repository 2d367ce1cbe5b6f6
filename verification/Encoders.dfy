/** The encoder selector of the server: tiers of requirements, then the best score. */
module Encoders {
  import opened Options
  import opened Codec

  datatype Encoder = Encoder(
    codec: string, name: string, isHardware: bool, supports10Bit: bool, supportsHDR: bool,
    speedRank: int, realtimeAt4K: bool, realtimeAt1080p: bool)

  predicate CanEncode(encoders: seq<Encoder>, codec: string) {
    exists i :: 0 <= i < |encoders| && Equal(encoders[i].codec, codec)
  }

  function Score(e: Encoder): int {
    e.speedRank
    + (if e.isHardware then 100 else 0)
    + (if e.supportsHDR then 20 else 0)
    + (if e.supports10Bit then 10 else 0)
    + (if e.realtimeAt4K then 15 else 0)
    + (if e.realtimeAt1080p then 5 else 0)
  }

  predicate ForCodec(e: Encoder, codec: string) {
    Equal(e.codec, codec)
  }

  /** The requirements that an encoder of the strictest tier meets. */
  predicate Meets(e: Encoder, hdr: bool, tenBit: bool) {
    (hdr ==> e.supportsHDR) && (tenBit ==> e.supports10Bit)
  }

  predicate SomeMeets(encoders: seq<Encoder>, codec: string, hdr: bool, tenBit: bool) {
    exists e :: e in encoders && ForCodec(e, codec) && Meets(e, hdr, tenBit)
  }

  /**
   The encoder is in the first tier that is not empty: all requirements; without HDR, if HDR was
   asked for; none.
   */
  predicate InTier(encoders: seq<Encoder>, codec: string, hdr: bool, tenBit: bool, e: Encoder) {
    && e in encoders && ForCodec(e, codec)
    && if SomeMeets(encoders, codec, hdr, tenBit) then Meets(e, hdr, tenBit)
       else SomeMeets(encoders, codec, false, tenBit) ==> Meets(e, false, tenBit)
  }

  /**
   What SelectEncoder may return: any encoder of the tier with the highest score; none if nothing
   encodes the codec.
   */
  ghost predicate IsSelected(encoders: seq<Encoder>, codec: string, hdr: bool, tenBit: bool, r: Option<Encoder>) {
    match r
    case None => !CanEncode(encoders, codec)
    case Some(e) =>
      && InTier(encoders, codec, hdr, tenBit, e)
      && forall x :: InTier(encoders, codec, hdr, tenBit, x) ==> Score(x) <= Score(e)
  }

  lemma SomeMeetsNothing(encoders: seq<Encoder>, codec: string)
    ensures SomeMeets(encoders, codec, false, false) <==> CanEncode(encoders, codec)
  {
    if CanEncode(encoders, codec) {
      var i :| 0 <= i < |encoders| && Equal(encoders[i].codec, codec);
      assert encoders[i] in encoders && ForCodec(encoders[i], codec) && Meets(encoders[i], false, false);
    }
  }

  /** A best encoder of the tier, or none. */
  ghost function BestEncoder(encoders: seq<Encoder>, codec: string, hdr: bool, tenBit: bool): (r: Option<Encoder>)
    ensures IsSelected(encoders, codec, hdr, tenBit, r)
  {
    if !CanEncode(encoders, codec) then None
    else
      TierNotEmpty(encoders, codec, hdr, tenBit);
      BestExists(encoders, e => InTier(encoders, codec, hdr, tenBit, e));
      var e :| InTier(encoders, codec, hdr, tenBit, e) &&
               forall x :: x in encoders && InTier(encoders, codec, hdr, tenBit, x) ==> Score(x) <= Score(e);
      Some(e)
  }

  lemma TierNotEmpty(encoders: seq<Encoder>, codec: string, hdr: bool, tenBit: bool)
    requires CanEncode(encoders, codec)
    ensures exists e :: InTier(encoders, codec, hdr, tenBit, e)
  {
    SomeMeetsNothing(encoders, codec);
    if SomeMeets(encoders, codec, hdr, tenBit) {
      var e :| e in encoders && ForCodec(e, codec) && Meets(e, hdr, tenBit);
      assert InTier(encoders, codec, hdr, tenBit, e);
    } else if SomeMeets(encoders, codec, false, tenBit) {
      var e :| e in encoders && ForCodec(e, codec) && Meets(e, false, tenBit);
      assert InTier(encoders, codec, hdr, tenBit, e);
    } else {
      var e :| e in encoders && ForCodec(e, codec) && Meets(e, false, false);
      assert InTier(encoders, codec, hdr, tenBit, e);
    }
  }

  /** Among the encoders of a sequence that satisfy p, one has the highest score. */
  lemma {:induction false} BestExists(s: seq<Encoder>, p: Encoder -> bool)
    requires exists e :: e in s && p(e)
    ensures exists e :: e in s && p(e) && forall x :: x in s && p(x) ==> Score(x) <= Score(e)
    decreases |s|
  {
    var first, rest := s[0], s[1..];
    assert forall x :: x in s <==> x == first || x in rest;
    if exists e :: e in rest && p(e) {
      BestExists(rest, p);
      var best :| best in rest && p(best) && forall x :: x in rest && p(x) ==> Score(x) <= Score(best);
      var e := if p(first) && Score(first) > Score(best) then first else best;
      assert e in s && p(e);
    } else {
      assert first in s && p(first);
    }
  }

  // ---------- The selector ----------

  /** GetEncoders */
  method GetEncoders(encoders: seq<Encoder>, codec: string) returns (r: seq<Encoder>)
    ensures forall e :: e in r <==> e in encoders && ForCodec(e, codec)
  {
    r := [];
    for i := 0 to |encoders|
      invariant forall e :: e in r <==> e in encoders[..i] && ForCodec(e, codec)
    {
      if Equal(encoders[i].codec, codec) {
        r := r + [encoders[i]];
      }
    }
    assert encoders[..|encoders|] == encoders;
  }

  /** One filtering loop of SelectEncoder. */
  method Filter(candidates: seq<Encoder>, hdr: bool, tenBit: bool) returns (filtered: seq<Encoder>)
    ensures forall e :: e in filtered <==> e in candidates && Meets(e, hdr, tenBit)
  {
    filtered := [];
    for i := 0 to |candidates|
      invariant forall e :: e in filtered <==> e in candidates[..i] && Meets(e, hdr, tenBit)
    {
      if (hdr ==> candidates[i].supportsHDR) && (tenBit ==> candidates[i].supports10Bit) {
        filtered := filtered + [candidates[i]];
      }
    }
    assert candidates[..|candidates|] == candidates;
  }

  /** Higher scores first. */
  predicate SortedByScore(s: seq<Encoder>) {
    forall i, j :: 0 <= i < j < |s| ==> Score(s[i]) >= Score(s[j])
  }

  /** The sort of SelectEncoder, as an insertion sort. */
  method SortByScore(s: seq<Encoder>) returns (r: seq<Encoder>)
    ensures SortedByScore(r) && |r| == |s| && forall e :: e in r <==> e in s
  {
    r := [];
    for i := 0 to |s|
      invariant SortedByScore(r) && |r| == i && forall e :: e in r <==> e in s[..i]
    {
      var at := 0;
      while at < |r| && Score(r[at]) >= Score(s[i])
        invariant at <= |r| && forall k :: 0 <= k < at ==> Score(r[k]) >= Score(s[i])
      {
        at := at + 1;
      }
      assert forall e :: e in r <==> e in r[..at] || e in r[at..];
      r := r[..at] + [s[i]] + r[at..];
    }
    assert s[..|s|] == s;
  }

  method SelectEncoder(encoders: seq<Encoder>, codec: string, hdr: bool, tenBit: bool) returns (r: Option<Encoder>)
    ensures IsSelected(encoders, codec, hdr, tenBit, r)
    ensures r.None? <==> !CanEncode(encoders, codec)
  {
    var candidates := GetEncoders(encoders, codec);
    SomeMeetsNothing(encoders, codec);
    if |candidates| == 0 {
      assert forall e :: e in encoders && ForCodec(e, codec) ==> e in candidates;
      return None;
    }
    assert candidates[0] in candidates && ForCodec(candidates[0], codec) && Meets(candidates[0], false, false);
    var filtered := Filter(candidates, hdr, tenBit);
    assert |filtered| > 0 ==> filtered[0] in filtered;
    assert SomeMeets(encoders, codec, hdr, tenBit) <==> |filtered| > 0;
    if |filtered| == 0 && hdr {
      filtered := Filter(candidates, false, tenBit);
      assert |filtered| > 0 ==> filtered[0] in filtered;
      assert SomeMeets(encoders, codec, false, tenBit) <==> |filtered| > 0;
    }
    if |filtered| == 0 {
      filtered := candidates;
    }
    assert forall e :: e in filtered <==> InTier(encoders, codec, hdr, tenBit, e);
    var sorted := SortByScore(filtered);
    assert filtered[0] in sorted;
    r := Some(sorted[0]);
    forall x | InTier(encoders, codec, hdr, tenBit, x)
      ensures Score(x) <= Score(sorted[0])
    {
      assert x in sorted;
    }
    assert sorted[0] in sorted;
  }
}
