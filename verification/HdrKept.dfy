/**
 When a re-encode keeps HDR: exactly which servers and devices, and what a more capable device keeps
 of what a lesser one kept.
 */
module HdrKept {
  import opened Options
  import opened Codec
  import opened Encoders
  import opened Playback
  import opened PlaybackTheorems

  // ---------- When the video is re-encoded ----------

  /** Neither direct play nor remux is possible. */
  predicate TriesTranscode(c: Context, item: Item, v: Device) {
    var valid := ValidSubtitle(item);
    && c.available
    && (SubtitleFor(c, item, v).forcesBurnIn ||
        (!CanDirectPlay(c.policy, valid, v) && RemuxContainer(c.policy, valid, v).None?))
  }

  predicate HasTarget(c: Context, item: Item, v: Device) {
    c.server.Some? && VideoTarget(ValidSubtitle(item), v, c.server.value).Some?
  }

  function TargetOf(c: Context, item: Item, v: Device): string
    requires HasTarget(c, item, v)
  {
    VideoTarget(ValidSubtitle(item), v, c.server.value).value
  }

  predicate ReencodesVideo(c: Context, item: Item, v: Device) {
    && TriesTranscode(c, item, v) && HasTarget(c, item, v)
    && !CopiesVideo(c.policy, ValidSubtitle(item), v, SubtitleFor(c, item, v).forcesBurnIn)
  }

  lemma DecideReencodes(c: Context, item: Item, v: Device, enc: Option<Encoder>)
    requires ReencodesVideo(c, item, v)
    ensures var valid := ValidSubtitle(item);
      Decide(c, item, v, enc).video ==
      PlanVideo(c.policy, valid, v, SubtitleFor(c, item, v).forcesBurnIn, TargetOf(c, item, v), enc)
  {
  }

  /** The condition above does not depend on the encoder, and is what the decision says. */
  lemma ReencodesIff(c: Context, item: Item, v: Device, enc: Option<Encoder>)
    ensures Reencodes(Decide(c, item, v, enc)) <==> ReencodesVideo(c, item, v)
  {
    DecideKind(c, item, v, enc);
    TranscodeKind(Prepared(c, item, v), c, ValidSubtitle(item), v, enc);
    if ReencodesVideo(c, item, v) {
      DecideReencodes(c, item, v, enc);
    } else if Reencodes(Decide(c, item, v, enc)) {
      DecideTranscodes(c, item, v, enc);
      ReencodePlan(c, item, v, enc);
    }
  }

  // ---------- When HDR is kept ----------

  /** The encoder has the best score of all that encode the codec. */
  predicate IsTop(encoders: seq<Encoder>, codec: string, e: Encoder) {
    && e in encoders && ForCodec(e, codec)
    && forall x :: x in encoders && ForCodec(x, codec) ==> Score(x) <= Score(e)
  }

  /**
   The selector is bound to return an encoder with HDR: some encoder has HDR and ten bits, or none has
   ten bits and every one with the best score has HDR.
   */
  predicate HdrEncodable(encoders: seq<Encoder>, codec: string) {
    || SomeMeets(encoders, codec, true, true)
    || (!SomeMeets(encoders, codec, false, true) &&
        forall e :: e in encoders && IsTop(encoders, codec, e) ==> e.supportsHDR)
  }

  lemma SelectedHasHdrIff(encoders: seq<Encoder>, codec: string)
    requires CanEncode(encoders, codec)
    ensures (forall r :: IsSelected(encoders, codec, true, true, r) ==> r.Some? && r.value.supportsHDR) <==>
            HdrEncodable(encoders, codec)
  {
    if HdrEncodable(encoders, codec) {
      forall r | IsSelected(encoders, codec, true, true, r)
        ensures r.Some? && r.value.supportsHDR
      {
        assert InTier(encoders, codec, true, true, r.value);
        if !SomeMeets(encoders, codec, true, true) {
          TopOfAll(encoders, codec, r.value);
        }
      }
    } else if SomeMeets(encoders, codec, false, true) {
      var r := BestEncoder(encoders, codec, true, true);
      assert InTier(encoders, codec, true, true, r.value);
      assert !r.value.supportsHDR by {
        assert Meets(r.value, false, true);
        assert !Meets(r.value, true, true);
      }
    } else {
      var e :| e in encoders && IsTop(encoders, codec, e) && !e.supportsHDR;
      TopOfAll(encoders, codec, e);
    }
  }

  /** Where no encoder has ten bits, the tier asked from is all that encode the codec. */
  lemma TopOfAll(encoders: seq<Encoder>, codec: string, e: Encoder)
    ensures !SomeMeets(encoders, codec, true, true) && !SomeMeets(encoders, codec, false, true) ==>
              (IsSelected(encoders, codec, true, true, Some(e)) <==> IsTop(encoders, codec, e))
  {
    if !SomeMeets(encoders, codec, true, true) && !SomeMeets(encoders, codec, false, true) {
      assert forall x :: InTier(encoders, codec, true, true, x) <==> x in encoders && ForCodec(x, codec);
    }
  }

  /** HDR is kept whichever of the encoders with equal scores is selected. */
  ghost predicate KeepsHdr(c: Context, item: Item, v: Device) {
    forall enc :: MaySelect(c, ValidSubtitle(item), v, enc) ==> Decide(c, item, v, enc).video.hdrPreserved
  }

  /**
   A re-encode keeps HDR iff the policy wants it for the device and the server is bound to encode the
   target with it.
   */
  lemma HdrKeptIff(c: Context, item: Item, v: Device)
    requires ReencodesVideo(c, item, v)
    ensures KeepsHdr(c, item, v) <==>
            NeedsHDR(c.policy, ValidSubtitle(item), v) && HdrEncodable(c.server.value, TargetOf(c, item, v))
  {
    var valid, burnIn, target := ValidSubtitle(item), SubtitleFor(c, item, v).forcesBurnIn, TargetOf(c, item, v);
    var encoders, hdr := c.server.value, NeedsHDR(c.policy, valid, v);
    TargetEncodable(valid, v, encoders);
    forall enc
      ensures Decide(c, item, v, enc).video.hdrPreserved <==> hdr && (enc.Some? ==> enc.value.supportsHDR)
      ensures MaySelect(c, valid, v, enc) <==> IsSelected(encoders, target, hdr, hdr, enc)
    {
      DecideReencodes(c, item, v, enc);
    }
    var best := BestEncoder(encoders, target, hdr, hdr);
    assert MaySelect(c, valid, v, best);
    if hdr {
      SelectedHasHdrIff(encoders, target);
    }
  }

  /**
   A re-encode that keeps HDR says that the bit depth is kept too. Whatever encoder is selected, it has
   ten bits iff some encoder of the target has both.
   */
  lemma KeptHdrIsTenBitIff(c: Context, item: Item, v: Device, enc: Option<Encoder>)
    requires ReencodesVideo(c, item, v) && MaySelect(c, ValidSubtitle(item), v, enc)
    ensures var video := Decide(c, item, v, enc).video;
      video.hdrPreserved ==>
        && video.bitDepthPreserved && enc.Some?
        && (enc.value.supports10Bit <==> SomeMeets(c.server.value, TargetOf(c, item, v), true, true))
  {
    DecideReencodes(c, item, v, enc);
    TargetEncodable(ValidSubtitle(item), v, c.server.value);
    if enc.Some? {
      assert Meets(enc.value, false, true) ==> SomeMeets(c.server.value, TargetOf(c, item, v), false, true);
    }
  }

  // ---------- What a more capable device keeps ----------

  /** What is left when the video is not re-encoded. */
  lemma NotReencoded(c: Context, item: Item, v: Device, enc: Option<Encoder>)
    requires c.available && !ReencodesVideo(c, item, v)
    ensures if TriesTranscode(c, item, v) && !HasTarget(c, item, v) then Decide(c, item, v, enc).kind.Fallback?
            else Decide(c, item, v, enc).video == CopiedVideo(ValidSubtitle(item))
  {
  }

  lemma FallbackVideo(c: Context, item: Item, v: Device, enc: Option<Encoder>)
    ensures var d := Decide(c, item, v, enc);
      d.kind.Fallback? ==> d.video.needsTranscode && !d.video.hdrPreserved
  {
    if Decide(c, item, v, enc).kind.Fallback? {
      DecideTranscodes(c, item, v, enc);
      TranscodeKind(Prepared(c, item, v), c, ValidSubtitle(item), v, enc);
    }
  }

  /** A device that can do more re-encodes only what the lesser one re-encodes, or falls back on. */
  lemma ReencodesLess(c: Context, item: Item, a: Device, b: Device)
    requires AtLeast(b, a) && ReencodesVideo(c, item, b) && !ReencodesVideo(c, item, a)
    ensures TriesTranscode(c, item, a) && !HasTarget(c, item, a)
  {
    var valid := ValidSubtitle(item);
    BurnInLess(c, item, a, b);
    DirectPlayMore(c.policy, valid, a, b);
    if RemuxContainer(c.policy, valid, a).Some? {
      RemuxMore(c.policy, valid, a, b);
    }
  }

  lemma HdrIsSource(c: Context, item: Item, v: Device, enc: Option<Encoder>)
    ensures Decide(c, item, v, enc).video.hdrPreserved ==> item.isHDR && !Decide(c, item, v, enc).kind.Fallback?
  {
    HdrConsistent(c, item, v, enc);
    FallbackVideo(c, item, v, enc);
  }

  lemma KeeperHasTarget(c: Context, item: Item, v: Device)
    requires c.available && KeepsHdr(c, item, v)
    ensures item.isHDR && (TriesTranscode(c, item, v) ==> HasTarget(c, item, v))
  {
    var enc := SomeSelection(c, ValidSubtitle(item), v);
    HdrIsSource(c, item, v, enc);
    if !ReencodesVideo(c, item, v) {
      NotReencoded(c, item, v, enc);
    }
  }

  lemma HasTargetMore(c: Context, item: Item, a: Device, b: Device)
    requires AtLeast(b, a) && c.available && KeepsHdr(c, item, a) && !ReencodesVideo(c, item, b)
    ensures TriesTranscode(c, item, b) ==> HasTarget(c, item, b)
  {
    var enc := SomeSelection(c, ValidSubtitle(item), a);
    HdrIsSource(c, item, a, enc);
    MoreCapableNeverWorse(c, item, a, b, enc, None);
    NotReencoded(c, item, b, None);
  }

  /** The more capable device does not re-encode: it copies HDR. */
  lemma CopyKeepsHdr(c: Context, item: Item, a: Device, b: Device)
    requires AtLeast(b, a) && c.available && KeepsHdr(c, item, a) && !ReencodesVideo(c, item, b)
    ensures KeepsHdr(c, item, b)
  {
    KeeperHasTarget(c, item, a);
    HasTargetMore(c, item, a, b);
    forall enc | MaySelect(c, ValidSubtitle(item), b, enc)
      ensures Decide(c, item, b, enc).video.hdrPreserved
    {
      NotReencoded(c, item, b, enc);
    }
  }

  /**
   Where a lesser device keeps HDR, a more capable one keeps it iff it does not re-encode, or the
   server is bound to encode its target with HDR.
   */
  lemma MoreCapableKeepsHdrIff(c: Context, item: Item, a: Device, b: Device)
    requires AtLeast(b, a) && c.available && KeepsHdr(c, item, a)
    ensures KeepsHdr(c, item, b) <==>
            (ReencodesVideo(c, item, b) ==> HdrEncodable(c.server.value, TargetOf(c, item, b)))
  {
    if ReencodesVideo(c, item, b) {
      KeeperHasTarget(c, item, a);
      if !ReencodesVideo(c, item, a) {
        ReencodesLess(c, item, a, b);
      }
      HdrKeptIff(c, item, a);
      assert NeedsHDR(c.policy, ValidSubtitle(item), a) ==> NeedsHDR(c.policy, ValidSubtitle(item), b);
      HdrKeptIff(c, item, b);
    } else {
      CopyKeepsHdr(c, item, a, b);
    }
  }

  lemma CodecNames()
    ensures Equal("hevc", "hevc") && Equal("vp9", "vp9")
    ensures !Equal("hevc", "vp9") && !Equal("vp9", "hevc") && !Equal("hevc", "av1") && !Equal("vp9", "av1")
  {
    assert IsPlain("hevc") && IsPlain("vp9") && IsPlain("av1");
    EqualPlain("hevc", "hevc");
    EqualPlain("vp9", "vp9");
    EqualPlain("hevc", "vp9");
    EqualPlain("vp9", "hevc");
    EqualPlain("hevc", "av1");
    EqualPlain("vp9", "av1");
  }

  /** The order of devices carries over to kinds of decisions, not to HDR: `a` re-encodes to VP9, `b` to HEVC. */
  predicate LosesHdr(c: Context, item: Item, a: Device, b: Device, hevc: Encoder, vp9: Encoder) {
    && c.server == Some([hevc, vp9]) && c.policy.hdr.BestForDevice? && c.available
    && hevc.codec == "hevc" && !hevc.supportsHDR
    && vp9.codec == "vp9" && vp9.supportsHDR && vp9.supports10Bit
    && item.videoCodec == "av1" && item.isHDR && !item.isDolbyVision
    && a.videoCodecs == ["vp9"] && a.supportsHDR
    && b == a.(videoCodecs := ["hevc", "vp9"])
  }

  lemma TargetsOfBoth(c: Context, item: Item, a: Device, b: Device, hevc: Encoder, vp9: Encoder)
    requires LosesHdr(c, item, a, b, hevc, vp9)
    ensures VideoTarget(item, a, [hevc, vp9]) == Some("vp9") && VideoTarget(item, b, [hevc, vp9]) == Some("hevc")
    ensures !CanDirectPlayVideo(c.policy, a, item) && !CanDirectPlayVideo(c.policy, b, item)
  {
    CodecNames();
    var encoders, ladder := [hevc, vp9], VideoLadder(item.videoCodec);
    assert encoders[0] == hevc && encoders[1] == vp9;
    assert a.videoCodecs[0] == "vp9" && b.videoCodecs[0] == "hevc";
    assert ladder[0] == "hevc" && ladder[1..][0] == "vp9";
    assert !ContainsCodec(a.videoCodecs, "hevc");
    assert ContainsCodec(b.videoCodecs, "hevc") && CanEncode(encoders, "hevc");
    assert ContainsCodec(a.videoCodecs, "vp9") && CanEncode(encoders, "vp9");
    assert FirstRung(ladder[1..], a, encoders) == Some("vp9");
  }

  lemma SelectedForBoth(hevc: Encoder, vp9: Encoder)
    requires hevc.codec == "hevc" && vp9.codec == "vp9" && vp9.supportsHDR && vp9.supports10Bit
    ensures IsSelected([hevc, vp9], "vp9", true, true, Some(vp9))
    ensures IsSelected([hevc, vp9], "hevc", true, true, Some(hevc))
  {
    CodecNames();
    assert [hevc, vp9][0] == hevc && [hevc, vp9][1] == vp9;
    assert ForCodec(vp9, "vp9") && !ForCodec(hevc, "vp9") && ForCodec(hevc, "hevc") && !ForCodec(vp9, "hevc");
    assert InTier([hevc, vp9], "vp9", true, true, vp9);
    assert InTier([hevc, vp9], "hevc", true, true, hevc);
  }

  /**
   A more capable device can lose HDR. A device with VP9 alone gets HDR in VP9; give it HEVC too and
   the ladder picks HEVC, for which the server has no HDR encoder, and the video is tone-mapped.
   */
  lemma MoreCapableMayLoseHdr(c: Context, item: Item, a: Device, b: Device, hevc: Encoder, vp9: Encoder)
    requires LosesHdr(c, item, a, b, hevc, vp9)
    ensures AtLeast(b, a)
    ensures MaySelect(c, ValidSubtitle(item), a, Some(vp9)) && MaySelect(c, ValidSubtitle(item), b, Some(hevc))
    ensures Decide(c, item, a, Some(vp9)).video.hdrPreserved && Decide(c, item, b, Some(hevc)).video.toneMapped
  {
    SelectedForBoth(hevc, vp9);
    TargetsOfBoth(c, ValidSubtitle(item), a, b, hevc, vp9);
    BothReencode(c, item, a, b, hevc, vp9);
    ReencodesTo(c, item, a, vp9);
    ReencodesTo(c, item, b, hevc);
  }

  lemma BothReencode(c: Context, item: Item, a: Device, b: Device, hevc: Encoder, vp9: Encoder)
    requires LosesHdr(c, item, a, b, hevc, vp9)
    ensures ReencodesVideo(c, item, a) && ReencodesVideo(c, item, b)
  {
    TargetsOfBoth(c, ValidSubtitle(item), a, b, hevc, vp9);
  }

  /** A re-encode for which the policy wants HDR keeps it with an encoder that has it, and maps it otherwise. */
  lemma ReencodesTo(c: Context, item: Item, v: Device, e: Encoder)
    requires ReencodesVideo(c, item, v) && NeedsHDR(c.policy, ValidSubtitle(item), v)
    ensures var w := Decide(c, item, v, Some(e)).video;
      w.hdrPreserved == e.supportsHDR && w.toneMapped == !e.supportsHDR
  {
    DecideReencodes(c, item, v, Some(e));
  }
}
