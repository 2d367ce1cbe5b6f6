/**
 What a device gets: whether it can play the audio that a decision sends, what becomes of HDR on the
 command line, and the container format that FFmpeg is told to write.
 */
module Delivery {
  import opened Options
  import opened Codec
  import opened Encoders
  import opened Playback
  import opened PlaybackTheorems
  import opened HdrKept
  import opened FFmpeg

  // ---------- Audio ----------

  /** The codec is not DTS, or the device has the flag for it. */
  predicate DtsAllowed(v: Device, codec: string) {
    Equal(codec, "dts") || Equal(codec, "dts-hd") ==> v.supportsDTS
  }

  /** Only copied audio is still Atmos. */
  predicate AtmosAllowed(v: Device, item: Item, plan: AudioPlan) {
    !plan.needsTranscode && item.isDolbyAtmos ==> v.supportsDolbyAtmos
  }

  /** The device can play the audio that the plan sends. */
  predicate AudioPlays(v: Device, item: Item, plan: AudioPlan) {
    ContainsCodec(v.audioCodecs, plan.target) && DtsAllowed(v, plan.target) && AtmosAllowed(v, item, plan)
  }

  /** How the audio is chosen when it is not simply copied, for the item with its subtitle index checked. */
  function ChosenAudio(c: Context, item: Item, v: Device): AudioTarget
    requires c.server.Some?
  {
    AudioFor(ValidSubtitle(item), v, c.server.value)
  }

  /** The audio is sent as it is. */
  predicate CopiesAudio(c: Context, item: Item, v: Device) {
    TriesTranscode(c, item, v) ==> HasTarget(c, item, v) && KeepsAudio(ChosenAudio(c, item, v), item)
  }

  /** Direct play, a remux, or a transcode: where the audio comes from. */
  lemma AudioIs(c: Context, item: Item, v: Device, enc: Option<Encoder>)
    requires c.available
    ensures Decide(c, item, v, enc).audio ==
            if !TriesTranscode(c, item, v) then CopiedAudio(item)
            else if !HasTarget(c, item, v) then AudioPlan(true, "aac", 2, false)
            else PlanAudio(item, ChosenAudio(c, item, v))
    ensures !TriesTranscode(c, item, v) ==> CanDirectPlayAudio(v, item)
  {
  }

  /** The decision copies the audio exactly then, whatever encoder is selected. */
  lemma CopiesAudioIff(c: Context, item: Item, v: Device, enc: Option<Encoder>)
    requires c.available
    ensures !Decide(c, item, v, enc).audio.needsTranscode <==> CopiesAudio(c, item, v)
  {
    AudioIs(c, item, v, enc);
  }

  /** A rung is DTS only if the source is, under that very name, and the rung is the first. */
  lemma DtsRungs(source: string, t: AudioTarget)
    requires t in AudioLadder(source)
    ensures Equal(t.codec, "dts") || Equal(t.codec, "dts-hd") <==> t.codec == "dts"
    ensures t.codec == "dts" ==> source == "dts"
  {
    LadderNames(source, t);
    NamesArePlain();
    EqualPlain(t.codec, "dts");
    EqualPlain(t.codec, "dts-hd");
  }

  /** A device that lists DTS gets DTS, and no other device does. */
  lemma DtsIsFirst(item: Item, v: Device, encoders: seq<Encoder>)
    requires item.audioCodec == "dts"
    ensures ContainsCodec(v.audioCodecs, "dts") <==>
            FirstAudio(AudioLadder("dts"), item, v, encoders) == Some(AudioTarget("dts", 8))
  {
    assert AudioLadder("dts")[0] == AudioTarget("dts", 8);
    FirstAudioIs(AudioLadder("dts"), item, v, encoders);
  }

  /** What the ladder sends, as far as DTS goes. */
  lemma DtsSentIff(item: Item, v: Device, encoders: seq<Encoder>)
    ensures DtsAllowed(v, PlanAudio(item, AudioFor(item, v, encoders)).target) <==>
            (item.audioCodec == "dts" && ContainsCodec(v.audioCodecs, "dts") ==> v.supportsDTS)
  {
    var t := FirstAudio(AudioLadder(item.audioCodec), item, v, encoders);
    FirstAudioIs(AudioLadder(item.audioCodec), item, v, encoders);
    AacIsNotDts(v);
    if t.Some? {
      DtsRungs(item.audioCodec, t.value);
    }
    if item.audioCodec == "dts" {
      DtsIsFirst(item, v, encoders);
    }
  }

  /** What the ladder sends is on the device's list, or is AAC as the last resort. */
  lemma ListedIff(item: Item, v: Device, encoders: seq<Encoder>)
    ensures ContainsCodec(v.audioCodecs, PlanAudio(item, AudioFor(item, v, encoders)).target) <==>
            (FirstAudio(AudioLadder(item.audioCodec), item, v, encoders).None? ==> ContainsCodec(v.audioCodecs, "aac"))
  {
    var t := FirstAudio(AudioLadder(item.audioCodec), item, v, encoders);
    FirstAudioIs(AudioLadder(item.audioCodec), item, v, encoders);
    var sent := PlanAudio(item, AudioFor(item, v, encoders)).target;
    SameListed(v.audioCodecs, sent, if t.Some? then t.value.codec else "aac");
  }

  lemma SameListed(list: seq<string>, a: string, b: string)
    requires Equal(a, b)
    ensures ContainsCodec(list, a) <==> ContainsCodec(list, b)
  {
    assert forall i :: 0 <= i < |list| ==> (Equal(list[i], a) <==> Equal(list[i], b));
  }

  /**
   Exactly when a device can play the audio that it is sent, with the breaker not open. Direct play and
   remux test it. The ladder looks at codec lists only: it sends DTS and Atmos without looking at the
   flags for them, and AAC as the last resort without looking at all.
   */
  lemma AudioPlaysIff(c: Context, item: Item, v: Device, enc: Option<Encoder>)
    requires c.available
    ensures AudioPlays(v, item, Decide(c, item, v, enc).audio) <==>
            (TriesTranscode(c, item, v) ==>
               if !HasTarget(c, item, v) then ContainsCodec(v.audioCodecs, "aac")
               else LadderPlays(c, item, v))
  {
    AudioIs(c, item, v, enc);
    if TriesTranscode(c, item, v) {
      if HasTarget(c, item, v) {
        LadderPlaysIff(c, item, v);
      } else {
        AacIsNotDts(v);
      }
    }
  }

  lemma AacIsNotDts(v: Device)
    ensures DtsAllowed(v, "aac")
  {
    NamesArePlain();
    EqualPlain("aac", "dts");
    EqualPlain("aac", "dts-hd");
  }

  lemma LadderPlaysIff(c: Context, item: Item, v: Device)
    requires HasTarget(c, item, v)
    ensures AudioPlays(v, item, PlanAudio(item, ChosenAudio(c, item, v))) <==> LadderPlays(c, item, v)
  {
    var valid := ValidSubtitle(item);
    assert PlanAudio(valid, ChosenAudio(c, item, v)) == PlanAudio(item, ChosenAudio(c, item, v));
    DtsSentIff(valid, v, c.server.value);
    ListedIff(valid, v, c.server.value);
  }

  /** The device has the flags for what the ladder copies, and lists AAC if nothing else is left. */
  predicate LadderPlays(c: Context, item: Item, v: Device)
    requires HasTarget(c, item, v)
  {
    && (item.audioCodec == "dts" && ContainsCodec(v.audioCodecs, "dts") ==> v.supportsDTS)
    && (item.isDolbyAtmos && KeepsAudio(ChosenAudio(c, item, v), item) ==> v.supportsDolbyAtmos)
    && (NoRung(c, item, v) ==> ContainsCodec(v.audioCodecs, "aac"))
  }

  /** No rung of the audio ladder can be used. */
  predicate NoRung(c: Context, item: Item, v: Device)
    requires HasTarget(c, item, v)
  {
    FirstAudio(AudioLadder(item.audioCodec), ValidSubtitle(item), v, c.server.value).None?
  }

  /** For copied audio that is the test for direct play, which the ladder does not repeat. */
  lemma CopiedAudioPlaysIff(c: Context, item: Item, v: Device)
    requires c.available && CopiesAudio(c, item, v)
    ensures CanDirectPlayAudio(v, item) <==> (TriesTranscode(c, item, v) ==> LadderPlays(c, item, v))
  {
    AudioIs(c, item, v, None);
    AudioPlaysIff(c, item, v, None);
  }

  /** It does happen: DTS is copied to a device that lists it and does not have the flag. */
  lemma DtsIsCopied(c: Context, item: Item, v: Device)
    requires c.available && HasTarget(c, item, v)
    requires item.audioCodec == "dts" && item.audioChannels <= 8 && "dts" in v.audioCodecs && !v.supportsDTS
    ensures CopiesAudio(c, item, v) && !CanDirectPlayAudio(v, item)
  {
    var i :| 0 <= i < |v.audioCodecs| && v.audioCodecs[i] == "dts";
    assert ContainsCodec(v.audioCodecs, "dts") by { assert Equal(v.audioCodecs[i], "dts"); }
    DtsIsFirst(ValidSubtitle(item), v, c.server.value);
    assert ChosenAudio(c, item, v).codec == "dts" && ChosenAudio(c, item, v).maxChannels == item.audioChannels;
    assert !CanDirectPlayAudio(v, item) by { assert Equal("dts", "dts"); }
  }

  // ---------- HDR on the command line ----------

  /** A tone-mapped decision gets its filter iff the source is flagged as HDR. */
  lemma ToneMapFilterIff(c: Context, item: Item, v: Device, enc: Option<Encoder>, used: Option<Encoder>)
    ensures var d := Decide(c, item, v, enc);
      var built := BuildArgs(d, used, c.policy);
      d.video.toneMapped && built.Ready? ==> (ToneMaps(built.args.videoFilters) == 1 <==> item.isHDR)
  {
    var d := Decide(c, item, v, enc);
    if d.video.toneMapped && BuildArgs(d, used, c.policy).Ready? {
      HdrConsistent(c, item, v, enc);
      ReencodeIsNoRemux(c, item, v, enc);
      VideoArgsFollowPlan(d, used, c.policy);
    }
  }

  lemma ReencodeIsNoRemux(c: Context, item: Item, v: Device, enc: Option<Encoder>)
    ensures Decide(c, item, v, enc).source == item
    ensures Decide(c, item, v, enc).video.needsTranscode ==> !Decide(c, item, v, enc).kind.Remux?
  {
  }

  /** Which re-encodes of a source without the HDR flag are tone-mapped in name only. */
  lemma MappedInNameIff(c: Context, item: Item, v: Device, enc: Option<Encoder>)
    requires ReencodesVideo(c, item, v) && !item.isHDR
    ensures Decide(c, item, v, enc).video.toneMapped <==> LosesBaseLayer(item, v)
  {
    DecideReencodes(c, item, v, enc);
  }

  /**
   Whatever re-encodes an HDR source makes it ten-bit or maps it, iff the server can encode some target
   for the device; otherwise the decision is the fallback.
   */
  lemma HdrHandledIff(c: Context, item: Item, v: Device, enc: Option<Encoder>, used: Option<Encoder>)
    requires MaySelect(c, ValidSubtitle(item), v, enc) && item.isHDR
    ensures var d := Decide(c, item, v, enc);
      var built := BuildArgs(d, used, c.policy);
      ((Reencodes(d) && used == enc) || d.kind.Fallback?) && built.Ready? ==>
        (TEN_BIT in built.args.videoArgs || ToneMaps(built.args.videoFilters) > 0 <==> HasTarget(c, item, v))
  {
    var d := Decide(c, item, v, enc);
    if BuildArgs(d, used, c.policy).Ready? {
      if Reencodes(d) && used == enc {
        ReencodesIff(c, item, v, enc);
        HdrReachesCommand(c, item, v, enc);
      } else if d.kind.Fallback? {
        DecideTranscodes(c, item, v, enc);
        TranscodeKind(Prepared(c, item, v), c, ValidSubtitle(item), v, enc);
        VideoArgsFollowPlan(d, used, c.policy);
      }
    }
  }

  lemma NoneToBurnIn(c: Context, item: Item, v: Device, enc: Option<Encoder>, used: Option<Encoder>)
    requires item.subtitleFormat == ""
    ensures !SubtitleFor(c, item, v).forcesBurnIn
    ensures !BuildArgs(Decide(c, item, v, enc), used, c.policy).BadStreamIndex?
  {
    RejectedIff(c, item, v, enc, used);
  }

  /** It does happen: as long as the server's capabilities are unknown, an HDR source is neither kept nor mapped. */
  lemma HdrIsIgnored(c: Context, item: Item, v: Device, used: Option<Encoder>)
    requires c.available && c.server.None? && item.isHDR && item.subtitleFormat == "" && v.videoCodecs == []
    ensures var d := Decide(c, item, v, None);
      var built := BuildArgs(d, used, c.policy);
      && d.kind.Fallback? && built.Ready?
      && TEN_BIT !in built.args.videoArgs && ToneMaps(built.args.videoFilters) == 0
  {
    NoneToBurnIn(c, item, v, None, used);
    NotReencoded(c, item, v, None);
    HdrHandledIff(c, item, v, None, used);
  }

  /** So does this: Dolby Vision without the HDR flag is tone-mapped in name, and no filter maps it. */
  lemma MappedInName(c: Context, item: Item, v: Device, enc: Option<Encoder>, used: Option<Encoder>)
    requires c.available && HasTarget(c, item, v)
    requires LosesBaseLayer(item, v) && !item.isHDR && item.subtitleFormat == ""
    ensures var d := Decide(c, item, v, enc);
      var built := BuildArgs(d, used, c.policy);
      d.video.toneMapped && built.Ready? && ToneMaps(built.args.videoFilters) != 1
  {
    NoneToBurnIn(c, item, v, enc, used);
    assert ReencodesVideo(c, item, v);
    MappedInNameIff(c, item, v, enc);
    ToneMapFilterIff(c, item, v, enc, used);
    DecideKind(c, item, v, enc);
  }

  // ---------- The container format ----------

  /** What FFmpeg calls the format of a container of the table. */
  function Muxer(container: string): string {
    if container == "mkv" then "matroska" else if container == "ts" then "mpegts" else container
  }

  /** A re-encode is written in the format of its container. */
  lemma TranscodeFormat(c: Context, item: Item, v: Device, enc: Option<Encoder>, used: Option<Encoder>)
    ensures var d := Decide(c, item, v, enc);
      var built := BuildArgs(d, used, c.policy);
      (d.kind.Transcode? || d.kind.Fallback?) && built.Ready? ==> built.args.outputFormat == Muxer(d.container)
  {
    var d := Decide(c, item, v, enc);
    if d.kind.Transcode? || d.kind.Fallback? {
      DecideTranscodes(c, item, v, enc);
      TranscodeContainer(Prepared(c, item, v), c, ValidSubtitle(item), v, enc);
    }
  }

  lemma TranscodeContainer(d: Decision, c: Context, item: Item, v: Device, enc: Option<Encoder>)
    ensures BuildTranscode(d, c, item, v, enc).container in PREFERRED
  {
    var r := BuildTranscode(d, c, item, v, enc);
    ContainerForIs(r.video.target, r.audio.target, v);
  }

  lemma ContainerForIs(video: string, audio: string, v: Device)
    ensures ContainerFor(video, audio, v) in PREFERRED && "mp4" in PREFERRED
  {
    FirstPreferredIff(PREFERRED, video, audio, v);
    assert PREFERRED[0] == "mp4" && PREFERRED[2] == "ts";
  }

  /** A remux passes the name of the container on: that is FFmpeg's name for it iff it is neither mkv nor ts. */
  lemma RemuxFormatIff(c: Context, item: Item, v: Device, enc: Option<Encoder>, used: Option<Encoder>)
    ensures var d := Decide(c, item, v, enc);
      var built := BuildArgs(d, used, c.policy);
      d.kind.Remux? ==>
        && SupportedCodecs(d.container) != []
        && built.Ready?
        && (built.args.outputFormat == Muxer(d.container) <==> d.container != "mkv" && d.container != "ts")
  {
    var d, valid := Decide(c, item, v, enc), ValidSubtitle(item);
    DecideKind(c, item, v, enc);
    if !d.kind.Remux? {
    } else if !SubtitleFor(c, item, v).forcesBurnIn && RemuxContainer(c.policy, valid, v).Some? {
      FirstHoldingIff(v.containers, valid.videoCodec, valid.audioCodec);
    } else {
      TranscodeContainer(Prepared(c, item, v), c, valid, v, enc);
    }
  }

  lemma MkvHolds(v: Device)
    requires v.containers == ["mkv"]
    ensures FirstHolding(v.containers, "h264", "aac") == Some("mkv")
    ensures !ContainsCodec(v.containers, "avi")
  {
    assert MKV[0] == "h264" && MKV[5] == "aac";
    assert IsPlain("mkv") && IsPlain("avi");
    EqualPlain("mkv", "avi");
  }

  /** Everything but the container can be played as it is. */
  lemma RemuxesTo(c: Context, item: Item, v: Device, enc: Option<Encoder>, container: string)
    requires c.available && item.subtitleFormat == "" && !ContainsCodec(v.containers, item.container)
    requires RemuxContainer(c.policy, ValidSubtitle(item), v) == Some(container)
    ensures var d := Decide(c, item, v, enc);
      d.kind.Remux? && d.container == container
  {
    NoneToBurnIn(c, item, v, enc, None);
  }

  /** It does happen: a device whose only container is mkv gets its remuxes under a name that FFmpeg lacks. */
  lemma RemuxedIntoMkv(c: Context, item: Item, v: Device, enc: Option<Encoder>, used: Option<Encoder>)
    requires c.available && item.subtitleFormat == "" && item.container == "avi" && v.containers == ["mkv"]
    requires item.videoCodec == "h264" && item.audioCodec == "aac"
    requires CanDirectPlayVideo(c.policy, v, item) && CanDirectPlayAudio(v, item) && HdrUntouched(c.policy, item, v)
    ensures var d := Decide(c, item, v, enc);
      var built := BuildArgs(d, used, c.policy);
      d.kind.Remux? && built.Ready? && built.args.outputFormat == "mkv" && Muxer(d.container) == "matroska"
  {
    MkvHolds(v);
    assert RemuxContainer(c.policy, ValidSubtitle(item), v) == Some("mkv");
    RemuxesTo(c, item, v, enc, "mkv");
  }
}
