/**
 Properties of every decision: a more capable device never gets a worse one, HDR is either kept by
 an encoder that can or tone-mapped, and a burned-in subtitle always means a re-encode.
 */
module PlaybackTheorems {
  import opened Options
  import opened Codec
  import opened Encoders
  import opened Playback

  // ---------- Monotonicity ----------

  function Rank(k: Kind): nat {
    match k
    case DirectPlay => 0
    case Remux => 1
    case Transcode => 2
    case Fallback => 3
  }

  predicate Includes(more: seq<string>, less: seq<string>) {
    forall i :: 0 <= i < |less| ==> less[i] in more
  }

  predicate LimitAtLeast(more: int, less: int) {
    more <= 0 || 0 < less <= more
  }

  /** Device b can do everything that device a can. */
  predicate AtLeast(b: Device, a: Device) {
    && Includes(b.videoCodecs, a.videoCodecs)
    && Includes(b.audioCodecs, a.audioCodecs)
    && Includes(b.subtitleFormats, a.subtitleFormats)
    && Includes(b.containers, a.containers)
    && LimitAtLeast(b.maxWidth, a.maxWidth)
    && LimitAtLeast(b.maxHeight, a.maxHeight)
    && LimitAtLeast(b.maxBitrate, a.maxBitrate)
    && (a.supportsHDR ==> b.supportsHDR)
    && (a.supportsDolbyVision ==> b.supportsDolbyVision)
    && (a.supportsDolbyAtmos ==> b.supportsDolbyAtmos)
    && (a.supportsDTS ==> b.supportsDTS)
    && a.trust <= b.trust
  }

  lemma ContainsMore(more: seq<string>, less: seq<string>, name: string)
    requires Includes(more, less) && ContainsCodec(less, name)
    ensures ContainsCodec(more, name)
  {
    var i :| 0 <= i < |less| && Equal(less[i], name);
    assert less[i] in more;
    var j :| 0 <= j < |more| && more[j] == less[i];
    assert Equal(more[j], name);
  }

  lemma DirectPlayMore(p: Policy, item: Item, a: Device, b: Device)
    requires AtLeast(b, a)
    ensures CanDirectPlayVideo(p, a, item) ==> CanDirectPlayVideo(p, b, item)
    ensures CanDirectPlayAudio(a, item) ==> CanDirectPlayAudio(b, item)
    ensures HdrUntouched(p, item, a) ==> HdrUntouched(p, item, b)
    ensures CanDirectPlay(p, item, a) ==> CanDirectPlay(p, item, b)
  {
    if ContainsCodec(a.videoCodecs, item.videoCodec) {
      ContainsMore(b.videoCodecs, a.videoCodecs, item.videoCodec);
    }
    if ContainsCodec(a.audioCodecs, item.audioCodec) {
      ContainsMore(b.audioCodecs, a.audioCodecs, item.audioCodec);
    }
    if ContainsCodec(a.containers, item.container) {
      ContainsMore(b.containers, a.containers, item.container);
    }
  }

  lemma {:induction false} FirstHoldingIff(containers: seq<string>, video: string, audio: string)
    ensures FirstHolding(containers, video, audio).Some? <==> exists c :: c in containers && Holds(c, video, audio)
    ensures FirstHolding(containers, video, audio).Some? ==>
              var c := FirstHolding(containers, video, audio).value;
              c in containers && Holds(c, video, audio)
    decreases |containers|
  {
    if containers != [] {
      FirstHoldingIff(containers[1..], video, audio);
      assert forall c :: c in containers <==> c == containers[0] || c in containers[1..];
    }
  }

  lemma RemuxMore(p: Policy, item: Item, a: Device, b: Device)
    requires AtLeast(b, a) && RemuxContainer(p, item, a).Some?
    ensures RemuxContainer(p, item, b).Some?
  {
    DirectPlayMore(p, item, a, b);
    FirstHoldingIff(a.containers, item.videoCodec, item.audioCodec);
    FirstHoldingIff(b.containers, item.videoCodec, item.audioCodec);
  }

  lemma BurnInLess(c: Context, item: Item, a: Device, b: Device)
    requires AtLeast(b, a)
    ensures SubtitleFor(c, item, b).forcesBurnIn ==> SubtitleFor(c, item, a).forcesBurnIn
  {
    var format := ValidSubtitle(item).subtitleFormat;
    if ContainsCodec(a.subtitleFormats, format) {
      ContainsMore(b.subtitleFormats, a.subtitleFormats, format);
    }
  }

  lemma {:induction false} FirstRungMore(ladder: seq<string>, a: Device, b: Device, encoders: seq<Encoder>)
    requires AtLeast(b, a) && FirstRung(ladder, a, encoders).Some?
    ensures FirstRung(ladder, b, encoders).Some?
    decreases |ladder|
  {
    if ContainsCodec(a.videoCodecs, ladder[0]) && CanEncode(encoders, ladder[0]) {
      ContainsMore(b.videoCodecs, a.videoCodecs, ladder[0]);
    } else {
      FirstRungMore(ladder[1..], a, b, encoders);
    }
  }

  // Keeping the audio. Every ladder starts with the source codec itself, if it knows it, and its
  // channel limits only go down.

  lemma LadderShape(source: string)
    ensures var l := AudioLadder(source);
      && (l[0].codec == source || |l| == 1)
      && (forall i :: 0 <= i < |l| ==> 2 <= l[i].maxChannels <= l[0].maxChannels)
  {
  }

  /** The names that the ladders know. */
  const LADDER_NAMES := {"truehd", "dts", "eac3", "ac3", "flac", "alac", "opus", "aac", "mp3"}

  lemma NamesArePlain()
    ensures forall s :: s in LADDER_NAMES ==> IsPlain(s)
    ensures IsPlain("dts-hd")
  {
    assert IsPlain("truehd") && IsPlain("dts") && IsPlain("eac3");
    assert IsPlain("ac3") && IsPlain("flac") && IsPlain("alac");
    assert IsPlain("opus") && IsPlain("aac") && IsPlain("mp3");
  }

  /** A ladder of more than one rung belongs to a source of that name; every rung has such a name. */
  lemma LadderNames(source: string, t: AudioTarget)
    requires t in AudioLadder(source)
    ensures t.codec in LADDER_NAMES && (t.codec == "dts" ==> source == "dts")
    ensures |AudioLadder(source)| > 1 ==> source in LADDER_NAMES
  {
  }

  /** If the source is AAC under any spelling, so is every rung of its ladder. */
  lemma AacLadder(source: string)
    requires Equal("aac", source)
    ensures forall i :: 0 <= i < |AudioLadder(source)| ==> AudioLadder(source)[i].codec == "aac"
  {
    if |AudioLadder(source)| > 1 {
      LadderNames(source, AudioLadder(source)[0]);
      NamesArePlain();
      EqualPlain("aac", source);
    }
  }

  lemma {:induction false} FirstAudioIs(ladder: seq<AudioTarget>, item: Item, v: Device, encoders: seq<Encoder>)
    ensures match FirstAudio(ladder, item, v, encoders)
      case Some(t) => t in ladder && UsableAudio(t, item, v, encoders)
      case None => forall t :: t in ladder ==> !UsableAudio(t, item, v, encoders)
    decreases |ladder|
  {
    if ladder != [] {
      FirstAudioIs(ladder[1..], item, v, encoders);
      assert forall t :: t in ladder <==> t == ladder[0] || t in ladder[1..];
    }
  }

  /** The rungs are the same for both devices; only which of them are usable differs. */
  lemma KeepsAudioMore(item: Item, a: Device, b: Device, encoders: seq<Encoder>)
    requires AtLeast(b, a) && KeepsAudio(AudioFor(item, a, encoders), item)
    ensures KeepsAudio(AudioFor(item, b, encoders), item)
  {
    var ladder := AudioLadder(item.audioCodec);
    LadderShape(item.audioCodec);
    FirstAudioIs(ladder, item, a, encoders);
    FirstAudioIs(ladder, item, b, encoders);
    match FirstAudio(ladder, item, a, encoders) {
      case Some(t) =>
        assert Equal(ladder[0].codec, item.audioCodec);
        assert ContainsCodec(a.audioCodecs, ladder[0].codec) by {
          var i :| 0 <= i < |a.audioCodecs| && Equal(a.audioCodecs[i], t.codec);
          assert Equal(a.audioCodecs[i], ladder[0].codec);
        }
        ContainsMore(b.audioCodecs, a.audioCodecs, ladder[0].codec);
      case None =>
        AacLadder(item.audioCodec);
    }
  }

  lemma VideoTargetMore(item: Item, a: Device, b: Device, encoders: seq<Encoder>)
    requires AtLeast(b, a) && VideoTarget(item, a, encoders).Some?
    ensures VideoTarget(item, b, encoders).Some?
  {
    if FirstRung(VideoLadder(item.videoCodec), a, encoders).Some? {
      FirstRungMore(VideoLadder(item.videoCodec), a, b, encoders);
    }
  }

  /** When the last resort, the transcode step, ends in each kind of decision. */
  lemma TranscodeKind(d: Decision, c: Context, item: Item, v: Device, enc: Option<Encoder>)
    ensures var r := BuildTranscode(d, c, item, v, enc).kind;
      && (r.Fallback? <==> c.server.None? || VideoTarget(item, v, c.server.value).None?)
      && (r.Remux? <==> !r.Fallback? && CopiesVideo(c.policy, item, v, d.subtitle.forcesBurnIn) &&
                        KeepsAudio(AudioFor(item, v, c.server.value), item))
      && !r.DirectPlay?
  {
  }

  lemma TranscodeMore(d: Decision, d': Decision, c: Context, item: Item, a: Device, b: Device,
                      encA: Option<Encoder>, encB: Option<Encoder>)
    requires AtLeast(b, a) && (d'.subtitle.forcesBurnIn ==> d.subtitle.forcesBurnIn)
    ensures Rank(BuildTranscode(d', c, item, b, encB).kind) <= Rank(BuildTranscode(d, c, item, a, encA).kind)
  {
    TranscodeKind(d, c, item, a, encA);
    TranscodeKind(d', c, item, b, encB);
    if !BuildTranscode(d, c, item, a, encA).kind.Fallback? {
      VideoTargetMore(item, a, b, c.server.value);
      if BuildTranscode(d, c, item, a, encA).kind.Remux? {
        DirectPlayMore(c.policy, item, a, b);
        KeepsAudioMore(item, a, b, c.server.value);
      }
    }
  }

  function Prepared(c: Context, item: Item, v: Device): Decision {
    Undecided(item, v).(subtitle := SubtitleFor(c, item, v))
  }

  /** Decide's three steps, as far as the decision type goes. */
  lemma DecideKind(c: Context, item: Item, v: Device, enc: Option<Encoder>)
    ensures var valid := ValidSubtitle(item);
      var burnIn := SubtitleFor(c, item, v).forcesBurnIn;
      Decide(c, item, v, enc).kind ==
      if !c.available || (!burnIn && CanDirectPlay(c.policy, valid, v)) then DirectPlay
      else if !burnIn && RemuxContainer(c.policy, valid, v).Some? then Remux
      else BuildTranscode(Prepared(c, item, v), c, valid, v, enc).kind
  {
  }

  /** A device that can do more never gets a worse decision, whichever encoders are picked. */
  lemma MoreCapableNeverWorse(c: Context, item: Item, a: Device, b: Device,
                              encA: Option<Encoder>, encB: Option<Encoder>)
    requires AtLeast(b, a)
    ensures Rank(Decide(c, item, b, encB).kind) <= Rank(Decide(c, item, a, encA).kind)
  {
    var valid := ValidSubtitle(item);
    DecideKind(c, item, a, encA);
    DecideKind(c, item, b, encB);
    DirectPlayMore(c.policy, valid, a, b);
    if RemuxContainer(c.policy, valid, a).Some? {
      RemuxMore(c.policy, valid, a, b);
    }
    BurnInLess(c, item, a, b);
    TranscodeMore(Prepared(c, item, a), Prepared(c, item, b), c, valid, a, b, encA, encB);
    TranscodeKind(Prepared(c, item, a), c, valid, a, encA);
  }

  // ---------- HDR ----------

  /** The decision re-encodes the video to a codec chosen from the ladder. */
  predicate Reencodes(d: Decision) {
    d.kind.Transcode? && d.video.needsTranscode
  }

  lemma DecideTranscodes(c: Context, item: Item, v: Device, enc: Option<Encoder>)
    requires Decide(c, item, v, enc).kind.Transcode? || Decide(c, item, v, enc).kind.Fallback?
    ensures Decide(c, item, v, enc) == BuildTranscode(Prepared(c, item, v), c, ValidSubtitle(item), v, enc)
  {
    DecideKind(c, item, v, enc);
  }

  /** The plan behind a re-encoding decision. */
  lemma ReencodePlan(c: Context, item: Item, v: Device, enc: Option<Encoder>)
    ensures var valid := ValidSubtitle(item);
      Reencodes(Decide(c, item, v, enc)) ==>
        && c.server.Some? && VideoTarget(valid, v, c.server.value).Some?
        && Decide(c, item, v, enc).video ==
           PlanVideo(c.policy, valid, v, SubtitleFor(c, item, v).forcesBurnIn,
                     VideoTarget(valid, v, c.server.value).value, enc)
  {
    if Reencodes(Decide(c, item, v, enc)) {
      DecideTranscodes(c, item, v, enc);
      TranscodeKind(Prepared(c, item, v), c, ValidSubtitle(item), v, enc);
    }
  }

  /** What a video plan promises about HDR, whatever encoder it was made for. */
  lemma PlanIsConsistent(p: Policy, item: Item, v: Device, burnIn: bool, target: string, enc: Option<Encoder>)
    ensures var w := PlanVideo(p, item, v, burnIn, target, enc);
      && !(w.hdrPreserved && w.toneMapped)
      && (w.hdrPreserved ==> item.isHDR && w.bitDepthPreserved)
      && (w.toneMapped ==> w.needsTranscode)
      && (item.isHDR ==> w.hdrPreserved || w.toneMapped)
      && (w.needsTranscode ==> w.target == target)
  {
  }

  /**
   A re-encode has an encoder for its target; HDR is kept only by an encoder that passes it through;
   an HDR source is either kept or tone-mapped, never both and never neither.
   */
  lemma ReencodeIsSound(c: Context, item: Item, v: Device, enc: Option<Encoder>)
    requires MaySelect(c, ValidSubtitle(item), v, enc) && Reencodes(Decide(c, item, v, enc))
    ensures var w := Decide(c, item, v, enc).video;
      && c.server.Some? && enc.Some?
      && enc.value in c.server.value && Equal(enc.value.codec, w.target)
      && w.encoderUsed == enc.value.name && w.hardwareUsed == enc.value.isHardware
      && (w.hdrPreserved ==> enc.value.supportsHDR)
      && (item.isHDR ==> w.hdrPreserved != w.toneMapped)
      && (w.hdrPreserved ==> item.isHDR && w.bitDepthPreserved)
  {
    ReencodePlan(c, item, v, enc);
    var valid := ValidSubtitle(item);
    SelectedEncoder(c, valid, v, enc);
    PlanIsConsistent(c.policy, valid, v, SubtitleFor(c, item, v).forcesBurnIn,
                     VideoTarget(valid, v, c.server.value).value, enc);
  }

  /** The selector was asked for a codec that the server can encode, so it answered with one of its encoders. */
  lemma SelectedEncoder(c: Context, item: Item, v: Device, enc: Option<Encoder>)
    requires c.server.Some? && VideoTarget(item, v, c.server.value).Some? && MaySelect(c, item, v, enc)
    ensures var hdr := NeedsHDR(c.policy, item, v);
      var target := VideoTarget(item, v, c.server.value).value;
      && enc.Some? && enc.value in c.server.value && Equal(enc.value.codec, target)
      && (hdr && SomeMeets(c.server.value, target, true, true) ==> enc.value.supportsHDR)
  {
    var target := VideoTarget(item, v, c.server.value).value;
    var hdr := NeedsHDR(c.policy, item, v);
    TargetEncodable(item, v, c.server.value);
    assert IsSelected(c.server.value, target, hdr, hdr, enc);
    assert InTier(c.server.value, target, hdr, hdr, enc.value);
  }

  lemma TargetEncodable(item: Item, v: Device, encoders: seq<Encoder>)
    ensures VideoTarget(item, v, encoders).Some? ==> CanEncode(encoders, VideoTarget(item, v, encoders).value)
  {
    FirstRungIs(VideoLadder(item.videoCodec), v, encoders);
  }

  lemma {:induction false} FirstRungIs(ladder: seq<string>, v: Device, encoders: seq<Encoder>)
    ensures FirstRung(ladder, v, encoders).Some? ==>
              var rung := FirstRung(ladder, v, encoders).value;
              rung in ladder && ContainsCodec(v.videoCodecs, rung) && CanEncode(encoders, rung)
    decreases |ladder|
  {
    if ladder != [] {
      FirstRungIs(ladder[1..], v, encoders);
    }
  }

  /** No decision keeps HDR and tone-maps it, and only an HDR source has HDR kept. */
  lemma HdrConsistent(c: Context, item: Item, v: Device, enc: Option<Encoder>)
    ensures Consistent(Decide(c, item, v, enc).video, item.isHDR)
  {
    TranscodeConsistent(Prepared(c, item, v), c, ValidSubtitle(item), v, enc);
  }

  predicate Consistent(w: VideoPlan, isHDR: bool) {
    && !(w.hdrPreserved && w.toneMapped)
    && (w.hdrPreserved ==> isHDR)
    && (w.toneMapped ==> w.needsTranscode)
  }

  lemma TranscodeConsistent(d: Decision, c: Context, item: Item, v: Device, enc: Option<Encoder>)
    requires Consistent(d.video, item.isHDR) && !d.video.hdrPreserved
    ensures Consistent(BuildTranscode(d, c, item, v, enc).video, item.isHDR)
  {
    if c.server.Some? && VideoTarget(item, v, c.server.value).Some? {
      PlanIsConsistent(c.policy, item, v, d.subtitle.forcesBurnIn, VideoTarget(item, v, c.server.value).value, enc);
    }
  }

  /** The selector always has something to return. */
  lemma SomeSelection(c: Context, item: Item, v: Device) returns (enc: Option<Encoder>)
    ensures MaySelect(c, item, v, enc)
  {
    enc := None;
    if c.server.Some? && VideoTarget(item, v, c.server.value).Some? {
      var hdr := NeedsHDR(c.policy, item, v);
      enc := BestEncoder(c.server.value, VideoTarget(item, v, c.server.value).value, hdr, hdr);
    }
  }

  // ---------- Burn-in ----------

  /** With the breaker not open, a subtitle to burn in always means a re-encode. */
  lemma BurnInReencodes(c: Context, item: Item, v: Device, enc: Option<Encoder>)
    ensures var d := Decide(c, item, v, enc);
      c.available && SubtitleFor(c, item, v).action.BurnIn? ==>
        && d.subtitle == SubtitleFor(c, item, v)
        && (d.kind.Transcode? || d.kind.Fallback?)
        && d.video.needsTranscode
  {
    BurnInIff(c, item, v);
    DecideKind(c, item, v, enc);
    TranscodeKind(Prepared(c, item, v), c, ValidSubtitle(item), v, enc);
    if c.available && SubtitleFor(c, item, v).action.BurnIn? {
      DecideTranscodes(c, item, v, enc);
    }
  }

  /** Which subtitles are burned in: styled text if configured, pictures that the device cannot show. */
  lemma BurnInIff(c: Context, item: Item, v: Device)
    ensures var format := ValidSubtitle(item).subtitleFormat;
      SubtitleFor(c, item, v).action.BurnIn? <==>
        format != "" &&
        ((Classify(format).StyledText? && c.burnInStyled) ||
         (Classify(format).Graphical? && !ContainsCodec(v.subtitleFormats, format)))
    ensures SubtitleFor(c, item, v).forcesBurnIn == SubtitleFor(c, item, v).action.BurnIn?
  {
  }

  /** Burn-ins happen: ASS subtitles, if styled text is to be burned in. */
  lemma StyledIsBurnedIn(c: Context, item: Item, v: Device)
    requires c.burnInStyled && item.subtitleFormat == "ass" && item.subtitleIndex >= 0
    ensures SubtitleFor(c, item, v).action.BurnIn?
  {
    assert IsPlain("ass") && IsPlain("srt") && IsPlain("vtt") && IsPlain("subrip");
    EqualPlain("ass", "srt");
    EqualPlain("ass", "vtt");
    EqualPlain("ass", "subrip");
    BurnInIff(c, item, v);
  }

  // ---------- The open breaker ----------

  /**
   While the breaker is open every decision says direct play. If the device cannot play the item
   directly, the decision is the zero value: no target is named and the subtitle is not looked at.
   */
  lemma OpenBreakerDegrades(c: Context, item: Item, v: Device, enc: Option<Encoder>)
    ensures var d := Decide(c, item, v, enc);
      !c.available ==>
        && d.kind.DirectPlay? && d.subtitle == UNDECIDED
        && (CanDirectPlay(c.policy, item, v) ==> d.video == CopiedVideo(item) && d.audio == CopiedAudio(item))
        && (!CanDirectPlay(c.policy, item, v) ==> d == Undecided(item, v))
  {
  }

  /** A direct-play decision can be trusted, whatever the item and the device, iff the breaker is not open. */
  lemma DirectPlayIsPlayableIff(c: Context, enc: Option<Encoder>)
    ensures (forall item, v :: Decide(c, item, v, enc).kind.DirectPlay? ==> CanDirectPlay(c.policy, item, v)) <==>
            c.available
  {
    if c.available {
      forall item, v | Decide(c, item, v, enc).kind.DirectPlay?
        ensures CanDirectPlay(c.policy, item, v)
      {
        DecideKind(c, item, v, enc);
        TranscodeKind(Prepared(c, item, v), c, ValidSubtitle(item), v, enc);
      }
    } else {
      var item := Item("", "", "", 0, 0, 0, 0, false, false, "", false, false, 0.0, "", -1);
      var v := Device([], [], [], [], 0, 0, 0, false, false, false, false, 0.0);
      assert !CanDirectPlay(c.policy, item, v);
      OpenBreakerDegrades(c, item, v, enc);
    }
  }

  /** A burn-in that the rules ask for reaches the decision iff the breaker is not open. */
  lemma BurnInKeptIff(c: Context, item: Item, v: Device, enc: Option<Encoder>)
    ensures SubtitleFor(c, item, v).action.BurnIn? ==>
              (Decide(c, item, v, enc).subtitle.action.BurnIn? <==> c.available)
  {
    if c.available {
      BurnInReencodes(c, item, v, enc);
    }
  }

  // ---------- Targets ----------

  lemma {:induction false} FirstPreferredIff(preferred: seq<string>, video: string, audio: string, v: Device)
    ensures FirstPreferred(preferred, video, audio, v).Some? <==>
            exists c :: c in preferred && ContainsCodec(v.containers, c) && Holds(c, video, audio)
    ensures FirstPreferred(preferred, video, audio, v).Some? ==>
              var c := FirstPreferred(preferred, video, audio, v).value; c in preferred && Holds(c, video, audio)
    decreases |preferred|
  {
    if preferred != [] {
      FirstPreferredIff(preferred[1..], video, audio, v);
      assert forall c :: c in preferred <==> c == preferred[0] || c in preferred[1..];
    }
  }

  /**
   The container that selectContainer settles on holds both codecs iff some preferred container of
   the device does, or MPEG-TS or MP4 does.
   */
  lemma ContainerHoldsIff(video: string, audio: string, v: Device)
    ensures Holds(ContainerFor(video, audio, v), video, audio) <==>
            (exists c :: c in PREFERRED && ContainsCodec(v.containers, c) && Holds(c, video, audio)) ||
            Holds("ts", video, audio) || Holds("mp4", video, audio)
  {
    FirstPreferredIff(PREFERRED, video, audio, v);
  }

  /** The codec is on the list, or is the last resort. */
  predicate Sendable(list: seq<string>, codec: string, lastResort: string) {
    ContainsCodec(list, codec) || Equal(lastResort, codec)
  }

  lemma AudioSendable(item: Item, v: Device, encoders: seq<Encoder>)
    ensures Sendable(v.audioCodecs, PlanAudio(item, AudioFor(item, v, encoders)).target, "aac")
  {
    FirstAudioIs(AudioLadder(item.audioCodec), item, v, encoders);
    var t := FirstAudio(AudioLadder(item.audioCodec), item, v, encoders);
    if t.Some? && Equal(t.value.codec, item.audioCodec) {
      var i :| 0 <= i < |v.audioCodecs| && Equal(v.audioCodecs[i], t.value.codec);
      assert Equal(v.audioCodecs[i], item.audioCodec);
    }
  }

  lemma VideoSendable(item: Item, v: Device, encoders: seq<Encoder>)
    requires VideoTarget(item, v, encoders).Some?
    ensures Sendable(v.videoCodecs, VideoTarget(item, v, encoders).value, "h264")
  {
    FirstRungIs(VideoLadder(item.videoCodec), v, encoders);
  }

  predicate Sends(d: Decision, v: Device) {
    Sendable(v.videoCodecs, d.video.target, "h264") && Sendable(v.audioCodecs, d.audio.target, "aac")
  }

  lemma TranscodeSends(d: Decision, c: Context, item: Item, v: Device, enc: Option<Encoder>)
    ensures Sends(BuildTranscode(d, c, item, v, enc), v)
  {
    if c.server.Some? && VideoTarget(item, v, c.server.value).Some? {
      var target := VideoTarget(item, v, c.server.value).value;
      AudioSendable(item, v, c.server.value);
      VideoSendable(item, v, c.server.value);
      assert !CopiesVideo(c.policy, item, v, d.subtitle.forcesBurnIn) ==>
          PlanVideo(c.policy, item, v, d.subtitle.forcesBurnIn, target, enc).target == target;
    }
  }

  /**
   The codecs that a decision names are on the lists of the device, but for the last resorts H.264 and
   AAC. The lists are not all that playing takes; what else there is to check is in Delivery.
   */
  lemma TargetsAreSendable(c: Context, item: Item, v: Device, enc: Option<Encoder>)
    requires c.available
    ensures Sends(Decide(c, item, v, enc), v)
  {
    var valid := ValidSubtitle(item);
    var d := Prepared(c, item, v);
    if d.subtitle.forcesBurnIn || !(CanDirectPlay(c.policy, valid, v) || RemuxContainer(c.policy, valid, v).Some?) {
      TranscodeSends(d, c, valid, v, enc);
      assert Decide(c, item, v, enc) == BuildTranscode(d, c, valid, v, enc);
    }
  }
}
