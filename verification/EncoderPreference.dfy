/** What the encoder selector prefers, told from the fields of the encoders. */
module EncoderPreference {
  import opened Options
  import opened Codec
  import opened Encoders

  // ---------- Requirements ----------

  /** Some encoder of the codec has what is asked for. */
  predicate Offered(encoders: seq<Encoder>, codec: string, hdr: bool, tenBit: bool) {
    exists x :: x in encoders && Equal(x.codec, codec) && (hdr ==> x.supportsHDR) && (tenBit ==> x.supports10Bit)
  }

  /**
   The encoders among which the selector chooses: those with all that is asked for; if there are none,
   those with ten bits if asked for; if there are none either, all of the codec.
   */
  predicate Candidate(encoders: seq<Encoder>, codec: string, hdr: bool, tenBit: bool, x: Encoder) {
    && x in encoders && Equal(x.codec, codec)
    && (Offered(encoders, codec, hdr, tenBit) ==> (hdr ==> x.supportsHDR) && (tenBit ==> x.supports10Bit))
    && (!Offered(encoders, codec, hdr, tenBit) && Offered(encoders, codec, false, tenBit) ==>
          (tenBit ==> x.supports10Bit))
  }

  lemma OfferedIff(encoders: seq<Encoder>, codec: string, hdr: bool, tenBit: bool)
    ensures SomeMeets(encoders, codec, hdr, tenBit) <==> Offered(encoders, codec, hdr, tenBit)
  {
    if Offered(encoders, codec, hdr, tenBit) {
      var x :| x in encoders && Equal(x.codec, codec) && (hdr ==> x.supportsHDR) && (tenBit ==> x.supports10Bit);
      assert ForCodec(x, codec) && Meets(x, hdr, tenBit);
    }
    if SomeMeets(encoders, codec, hdr, tenBit) {
      var x :| x in encoders && ForCodec(x, codec) && Meets(x, hdr, tenBit);
      assert Equal(x.codec, codec) && (hdr ==> x.supportsHDR) && (tenBit ==> x.supports10Bit);
    }
  }

  lemma CandidateIff(encoders: seq<Encoder>, codec: string, hdr: bool, tenBit: bool, x: Encoder)
    ensures InTier(encoders, codec, hdr, tenBit, x) <==> Candidate(encoders, codec, hdr, tenBit, x)
  {
    OfferedIff(encoders, codec, hdr, tenBit);
    OfferedIff(encoders, codec, false, tenBit);
  }

  // ---------- Preferences ----------

  /** What one encoder is ahead of another by, on account of something that is worth so many ranks. */
  function Lead(has: bool, other: bool, worth: int): int {
    if has == other then 0 else if has then worth else -worth
  }

  /** How many ranks of speed x may be behind e and still be as good. */
  function Ahead(x: Encoder, e: Encoder): int {
    Lead(x.isHardware, e.isHardware, 100) + Lead(x.supportsHDR, e.supportsHDR, 20)
    + Lead(x.realtimeAt4K, e.realtimeAt4K, 15) + Lead(x.supports10Bit, e.supports10Bit, 10)
    + Lead(x.realtimeAt1080p, e.realtimeAt1080p, 5)
  }

  lemma ScoresCompare(x: Encoder, e: Encoder)
    ensures Score(x) <= Score(e) <==> x.speedRank + Ahead(x, e) <= e.speedRank
  {
  }

  /** Nothing is selected iff nothing encodes the codec. */
  lemma NothingSelectedIff(encoders: seq<Encoder>, codec: string, hdr: bool, tenBit: bool)
    ensures IsSelected(encoders, codec, hdr, tenBit, None) <==> forall e :: e in encoders ==> !Equal(e.codec, codec)
  {
    SomeMeetsNothing(encoders, codec);
    OfferedIff(encoders, codec, false, false);
  }

  /** An encoder may be selected iff it is a candidate, and faster than every other by what that is ahead of it. */
  lemma SelectedIff(encoders: seq<Encoder>, codec: string, hdr: bool, tenBit: bool, e: Encoder)
    ensures IsSelected(encoders, codec, hdr, tenBit, Some(e)) <==>
            && Candidate(encoders, codec, hdr, tenBit, e)
            && forall x :: Candidate(encoders, codec, hdr, tenBit, x) ==> x.speedRank + Ahead(x, e) <= e.speedRank
  {
    forall x
      ensures InTier(encoders, codec, hdr, tenBit, x) <==> Candidate(encoders, codec, hdr, tenBit, x)
      ensures Score(x) <= Score(e) <==> x.speedRank + Ahead(x, e) <= e.speedRank
    {
      CandidateIff(encoders, codec, hdr, tenBit, x);
      ScoresCompare(x, e);
    }
  }

  /**
   Hardware comes first: a software encoder is selected over a hardware one only if it is faster by at
   least 50 ranks; all else that a software encoder can have is worth 50.
   */
  lemma HardwareFirst(encoders: seq<Encoder>, codec: string, hdr: bool, tenBit: bool, e: Encoder, x: Encoder)
    requires IsSelected(encoders, codec, hdr, tenBit, Some(e)) && !e.isHardware
    requires Candidate(encoders, codec, hdr, tenBit, x) && x.isHardware
    ensures x.speedRank + 50 <= e.speedRank
  {
    SelectedIff(encoders, codec, hdr, tenBit, e);
  }

  /** Fifty ranks are just enough, for a software encoder that has everything over a hardware one that has nothing. */
  lemma FiftyRanksSuffice(codec: string, rank: int)
    ensures var x := Encoder(codec, "hardware", true, false, false, rank, false, false);
      var e := Encoder(codec, "software", false, true, true, rank + 50, true, true);
      IsSelected([x] + [e], codec, false, false, Some(e)) && IsSelected([x] + [e], codec, false, false, Some(x))
  {
    var x := Encoder(codec, "hardware", true, false, false, rank, false, false);
    var e := Encoder(codec, "software", false, true, true, rank + 50, true, true);
    assert x in [x] + [e] && e in [x] + [e];
    SelectedIff([x] + [e], codec, false, false, x);
    SelectedIff([x] + [e], codec, false, false, e);
  }

  datatype Feature = Hardware | Hdr | Realtime4K | TenBit | Realtime1080p

  predicate Has(e: Encoder, f: Feature) {
    match f
    case Hardware => e.isHardware
    case Hdr => e.supportsHDR
    case Realtime4K => e.realtimeAt4K
    case TenBit => e.supports10Bit
    case Realtime1080p => e.realtimeAt1080p
  }

  /** The two differ in nothing that counts but the feature and their speed. */
  predicate DifferIn(x: Encoder, e: Encoder, f: Feature) {
    Has(x, f) && !Has(e, f) && forall g :: g != f ==> Has(x, g) == Has(e, g)
  }

  /** What each feature is worth: between two such candidates, the one without it must be so many ranks faster. */
  lemma FeatureIsWorth(encoders: seq<Encoder>, codec: string, hdr: bool, tenBit: bool,
                       e: Encoder, x: Encoder, f: Feature)
    requires Candidate(encoders, codec, hdr, tenBit, e) && Candidate(encoders, codec, hdr, tenBit, x)
    requires DifferIn(x, e, f)
    ensures var worth :=
        match f case Hardware => 100 case Hdr => 20 case Realtime4K => 15 case TenBit => 10 case Realtime1080p => 5;
      && (IsSelected(encoders, codec, hdr, tenBit, Some(e)) ==> x.speedRank + worth <= e.speedRank)
      && (IsSelected(encoders, codec, hdr, tenBit, Some(x)) ==> e.speedRank - worth <= x.speedRank)
  {
    SelectedIff(encoders, codec, hdr, tenBit, e);
    SelectedIff(encoders, codec, hdr, tenBit, x);
    SameBut(x, e, f);
  }

  lemma SameBut(x: Encoder, e: Encoder, f: Feature)
    requires DifferIn(x, e, f)
    ensures f != Hardware ==> x.isHardware == e.isHardware
    ensures f != Hdr ==> x.supportsHDR == e.supportsHDR
    ensures f != Realtime4K ==> x.realtimeAt4K == e.realtimeAt4K
    ensures f != TenBit ==> x.supports10Bit == e.supports10Bit
    ensures f != Realtime1080p ==> x.realtimeAt1080p == e.realtimeAt1080p
  {
    assert f != Hardware ==> Has(x, Hardware) == Has(e, Hardware);
    assert f != Hdr ==> Has(x, Hdr) == Has(e, Hdr);
    assert f != Realtime4K ==> Has(x, Realtime4K) == Has(e, Realtime4K);
    assert f != TenBit ==> Has(x, TenBit) == Has(e, TenBit);
    assert f != Realtime1080p ==> Has(x, Realtime1080p) == Has(e, Realtime1080p);
  }

  /** If one encoder has all that another has, and is no slower and differs in a feature, the other is not selected. */
  lemma DominatedNeverSelected(encoders: seq<Encoder>, codec: string, hdr: bool, tenBit: bool, e: Encoder, x: Encoder)
    requires Candidate(encoders, codec, hdr, tenBit, x) && e.speedRank <= x.speedRank
    requires forall f :: Has(e, f) ==> Has(x, f)
    requires e.speedRank < x.speedRank || exists f :: Has(x, f) && !Has(e, f)
    ensures !IsSelected(encoders, codec, hdr, tenBit, Some(e))
  {
    SelectedIff(encoders, codec, hdr, tenBit, e);
    assert Has(e, Hardware) ==> Has(x, Hardware);
    assert Has(e, Hdr) ==> Has(x, Hdr);
    assert Has(e, Realtime4K) ==> Has(x, Realtime4K);
    assert Has(e, TenBit) ==> Has(x, TenBit);
    assert Has(e, Realtime1080p) ==> Has(x, Realtime1080p);
  }
}
