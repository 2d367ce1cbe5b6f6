/** The rules of playback. */
module PlaybackRules {
  // The rules as a reader of the documentation would put them, field by field, and that every decision
  // follows them: when each stream is kept, what it is re-encoded to otherwise, and which kind of decision
  // that makes.

  import opened Options
  import opened Codec
  import opened Encoders
  import opened Playback
  import opened PlaybackTheorems
  import opened HdrKept
  import Delivery

  // ---------- The rules ----------

  /** The name is on the list, in some spelling. */
  predicate Lists(list: seq<string>, name: string) {
    exists s :: s in list && Equal(s, name)
  }

  predicate Encodes(encoders: seq<Encoder>, name: string) {
    exists e :: e in encoders && Equal(e.codec, name)
  }

  /** The device plays the video as it is. A limit that is not positive is none. */
  predicate PlaysVideo(p: Policy, v: Device, item: Item) {
    && p.minTrustForDirectPlay <= v.trust
    && Lists(v.videoCodecs, item.videoCodec)
    && (0 < v.maxWidth ==> item.width <= v.maxWidth)
    && (0 < v.maxHeight ==> item.height <= v.maxHeight)
    && (0 < v.maxBitrate ==> item.bitrate <= v.maxBitrate)
    && (item.isHDR ==> v.supportsHDR)
    && (item.isDolbyVision ==> v.supportsDolbyVision)
  }

  predicate PlaysAudio(v: Device, item: Item) {
    && Lists(v.audioCodecs, item.audioCodec)
    && (Equal(item.audioCodec, "dts") || Equal(item.audioCodec, "dts-hd") ==> v.supportsDTS)
    && (item.isDolbyAtmos ==> v.supportsDolbyAtmos)
  }

  /** The policy wants every HDR source mapped. */
  predicate MapsHdr(p: Policy, item: Item) {
    item.isHDR && p.hdr == AlwaysToneMap
  }

  predicate IsPlainText(format: string) {
    Equal(format, "srt") || Equal(format, "vtt") || Equal(format, "subrip")
  }

  predicate IsStyledText(format: string) {
    Equal(format, "ass") || Equal(format, "ssa")
  }

  predicate IsPicture(format: string) {
    || Equal(format, "pgs") || Equal(format, "hdmv_pgs_subtitle") || Equal(format, "vobsub")
    || Equal(format, "dvbsub") || Equal(format, "dvb_subtitle") || Equal(format, "dvdsub")
  }

  /**
   The subtitle can only be shown in the picture: pictures that the device cannot show, and styled text
   if configured.
   */
  predicate BurnsIn(c: Context, item: Item, v: Device) {
    var format := item.subtitleFormat;
    && -1 <= item.subtitleIndex && format != "" && !IsPlainText(format)
    && if IsStyledText(format) then c.burnInStyled else IsPicture(format) && !Lists(v.subtitleFormats, format)
  }

  /** Some container of the device can hold both streams as they are. */
  predicate SomeContainerHolds(item: Item, v: Device) {
    exists name :: name in v.containers &&
      item.videoCodec in SupportedCodecs(name) && item.audioCodec in SupportedCodecs(name)
  }

  /** Nothing needs to be re-encoded. */
  predicate PlaysAsIs(c: Context, item: Item, v: Device) {
    && !BurnsIn(c, item, v)
    && PlaysVideo(c.policy, v, item) && !MapsHdr(c.policy, item) && PlaysAudio(v, item)
    && (Lists(v.containers, item.container) || SomeContainerHolds(item, v))
  }

  const FROM_HEVC_ON := {"av1", "hevc", "vp9"}
  const FROM_VP9_ON := {"av1", "hevc", "vp9", "vp8"}

  /**
   The best codec that the source may become and that both the device plays and the server encodes;
   failing that H.264, which the device is not asked about.
   */
  function BestVideo(item: Item, v: Device, encoders: seq<Encoder>): Option<string> {
    if item.videoCodec in FROM_HEVC_ON && Lists(v.videoCodecs, "hevc") && Encodes(encoders, "hevc") then Some("hevc")
    else if item.videoCodec in FROM_VP9_ON && Lists(v.videoCodecs, "vp9") && Encodes(encoders, "vp9") then Some("vp9")
    else if Encodes(encoders, "h264") then Some("h264")
    else None
  }

  predicate HasBest(c: Context, item: Item, v: Device) {
    c.server.Some? && BestVideo(item, v, c.server.value).Some?
  }

  /** Source codecs by what they may become. */
  datatype AudioClass = Cinema | DolbyPlus | Dolby | Compact | Aac | Mp3 | Other

  function ClassOf(source: string): AudioClass {
    if source == "truehd" || source == "dts" then Cinema
    else if source == "eac3" then DolbyPlus
    else if source == "ac3" then Dolby
    else if source == "flac" || source == "alac" || source == "opus" then Compact
    else if source == "aac" then Aac
    else if source == "mp3" then Mp3
    else Other
  }

  function Least(a: int, b: int): int {
    if a < b then a else b
  }

  /** The device lists the codec, and the server can encode it or need not. */
  predicate CanSend(name: string, item: Item, v: Device, encoders: seq<Encoder>) {
    Lists(v.audioCodecs, name) && (Encodes(encoders, name) || Equal(name, item.audioCodec))
  }

  /**
   What the audio becomes: the source codec if it can stay; or else E-AC-3, AC-3 and AAC, as far as they
   are steps down. AAC in stereo is what is left, and the device is not asked about it.
   */
  function BestAudio(item: Item, v: Device, encoders: seq<Encoder>): AudioTarget {
    var source, sort, channels := item.audioCodec, ClassOf(item.audioCodec), item.audioChannels;
    if (sort.Cinema? || sort.Compact?) && CanSend(source, item, v, encoders)
    then AudioTarget(source, Least(8, channels))
    else if sort.Mp3? && CanSend("mp3", item, v, encoders) then AudioTarget("mp3", Least(2, channels))
    else if (sort.Cinema? || sort.DolbyPlus?) && CanSend("eac3", item, v, encoders)
    then AudioTarget("eac3", Least(8, channels))
    else if (sort.Cinema? || sort.DolbyPlus? || sort.Dolby?) && CanSend("ac3", item, v, encoders)
    then AudioTarget("ac3", Least(6, channels))
    else if CanSend("aac", item, v, encoders)
    then AudioTarget("aac", Least(if sort.Mp3? || sort.Other? then 2 else 6, channels))
    else AudioTarget("aac", 2)
  }

  // ---------- The code follows them ----------

  lemma ListsIff(list: seq<string>, name: string)
    ensures ContainsCodec(list, name) <==> Lists(list, name)
  {
    if Lists(list, name) {
      var s :| s in list && Equal(s, name);
      var i :| 0 <= i < |list| && list[i] == s;
    }
  }

  lemma EncodesIff(encoders: seq<Encoder>, name: string)
    ensures CanEncode(encoders, name) <==> Encodes(encoders, name)
  {
    if Encodes(encoders, name) {
      var e :| e in encoders && Equal(e.codec, name);
      var i :| 0 <= i < |encoders| && encoders[i] == e;
    }
  }

  lemma PlaysIff(p: Policy, v: Device, item: Item)
    ensures CanDirectPlayVideo(p, v, item) <==> PlaysVideo(p, v, item)
    ensures CanDirectPlayAudio(v, item) <==> PlaysAudio(v, item)
  {
    ListsIff(v.videoCodecs, item.videoCodec);
    ListsIff(v.audioCodecs, item.audioCodec);
  }

  lemma BurnsInIff(c: Context, item: Item, v: Device)
    ensures SubtitleFor(c, item, v).forcesBurnIn <==> BurnsIn(c, item, v)
  {
    BurnInIff(c, item, v);
    ListsIff(v.subtitleFormats, item.subtitleFormat);
  }

  lemma HoldingIff(item: Item, v: Device)
    ensures FirstHolding(v.containers, item.videoCodec, item.audioCodec).Some? <==> SomeContainerHolds(item, v)
  {
    FirstHoldingIff(v.containers, item.videoCodec, item.audioCodec);
    if SomeContainerHolds(item, v) {
      var name :| name in v.containers &&
        item.videoCodec in SupportedCodecs(name) && item.audioCodec in SupportedCodecs(name);
      assert Holds(name, item.videoCodec, item.audioCodec);
    }
  }

  lemma UntouchedIff(p: Policy, item: Item, v: Device)
    requires PlaysVideo(p, v, item)
    ensures HdrUntouched(p, item, v) <==> !MapsHdr(p, item)
    ensures NeedsToneMap(p, item, v) <==> MapsHdr(p, item)
  {
  }

  /** Direct play or a remux is possible exactly when nothing needs to be re-encoded. */
  lemma PlaysAsIsIff(c: Context, item: Item, v: Device)
    requires c.available
    ensures TriesTranscode(c, item, v) <==> !PlaysAsIs(c, item, v)
  {
    BurnsInIff(c, item, v);
    DirectPlayIff(c.policy, item, v);
    SubtitleDoesNotMatter(c.policy, item, v);
  }

  lemma DirectPlayIff(p: Policy, item: Item, v: Device)
    ensures var plays := PlaysVideo(p, v, item) && !MapsHdr(p, item) && PlaysAudio(v, item);
      && (CanDirectPlay(p, item, v) <==> plays && Lists(v.containers, item.container))
      && (RemuxContainer(p, item, v).Some? <==> plays && SomeContainerHolds(item, v))
  {
    PlaysIff(p, v, item);
    ListsIff(v.containers, item.container);
    HoldingIff(item, v);
    if PlaysVideo(p, v, item) {
      UntouchedIff(p, item, v);
    }
  }

  lemma FirstRungOfCons(a: string, rest: seq<string>, v: Device, encoders: seq<Encoder>)
    ensures FirstRung([a] + rest, v, encoders) ==
            if Lists(v.videoCodecs, a) && Encodes(encoders, a) then Some(a) else FirstRung(rest, v, encoders)
  {
    assert ([a] + rest)[1..] == rest;
    ListsIff(v.videoCodecs, a);
    EncodesIff(encoders, a);
  }

  /** The ladders come down to this: the first of at most two codecs that both sides know, or H.264. */
  lemma VideoTargetIs(item: Item, v: Device, encoders: seq<Encoder>)
    ensures VideoTarget(item, v, encoders) == BestVideo(item, v, encoders)
  {
    VideoLadderIs(item.videoCodec);
    FirstRungOfCons("h264", [], v, encoders);
    FirstRungOfCons("vp9", H264_RUNG, v, encoders);
    FirstRungOfCons("hevc", VP9_RUNGS, v, encoders);
    assert ["h264"] + [] == H264_RUNG;
    EncodesIff(encoders, "h264");
  }

  const H264_RUNG := ["h264"]
  const VP9_RUNGS := ["vp9"] + H264_RUNG

  lemma VideoLadderIs(source: string)
    ensures VideoLadder(source) ==
            if source in FROM_HEVC_ON then ["hevc"] + VP9_RUNGS
            else if source in FROM_VP9_ON then VP9_RUNGS
            else H264_RUNG
  {
  }

  lemma FirstAudioOfCons(t: AudioTarget, rest: seq<AudioTarget>, item: Item, v: Device, encoders: seq<Encoder>)
    ensures FirstAudio([t] + rest, item, v, encoders) ==
            if CanSend(t.codec, item, v, encoders) then Some(t) else FirstAudio(rest, item, v, encoders)
  {
    assert ([t] + rest)[1..] == rest;
    ListsIff(v.audioCodecs, t.codec);
    EncodesIff(encoders, t.codec);
  }

  /** The lower rungs that the long ladders share. */
  function AacRungs(surround: bool): seq<AudioTarget> {
    if surround then [AudioTarget("aac", 6)] + [AudioTarget("aac", 2)] else [AudioTarget("aac", 2)]
  }

  function Ac3Rungs(): seq<AudioTarget> {
    [AudioTarget("ac3", 6)] + AacRungs(true)
  }

  function Eac3Rungs(): seq<AudioTarget> {
    [AudioTarget("eac3", 8)] + ([AudioTarget("eac3", 6)] + Ac3Rungs())
  }

  lemma AacFirst(surround: bool, item: Item, v: Device, encoders: seq<Encoder>)
    ensures FirstAudio(AacRungs(surround), item, v, encoders) ==
            if CanSend("aac", item, v, encoders) then Some(AudioTarget("aac", if surround then 6 else 2)) else None
  {
    FirstAudioOfCons(AudioTarget("aac", 2), [], item, v, encoders);
    assert [AudioTarget("aac", 2)] + [] == [AudioTarget("aac", 2)];
    FirstAudioOfCons(AudioTarget("aac", 6), [AudioTarget("aac", 2)], item, v, encoders);
  }

  lemma Ac3First(item: Item, v: Device, encoders: seq<Encoder>)
    ensures FirstAudio(Ac3Rungs(), item, v, encoders) ==
            if CanSend("ac3", item, v, encoders) then Some(AudioTarget("ac3", 6))
            else FirstAudio(AacRungs(true), item, v, encoders)
  {
    FirstAudioOfCons(AudioTarget("ac3", 6), AacRungs(true), item, v, encoders);
  }

  /** The second rung of a codec is never used: what rules out the first rules out the second. */
  lemma Eac3First(item: Item, v: Device, encoders: seq<Encoder>)
    ensures FirstAudio(Eac3Rungs(), item, v, encoders) ==
            if CanSend("eac3", item, v, encoders) then Some(AudioTarget("eac3", 8))
            else FirstAudio(Ac3Rungs(), item, v, encoders)
  {
    FirstAudioOfCons(AudioTarget("eac3", 6), Ac3Rungs(), item, v, encoders);
    FirstAudioOfCons(AudioTarget("eac3", 8), [AudioTarget("eac3", 6)] + Ac3Rungs(), item, v, encoders);
  }

  lemma LaddersAre(source: string)
    ensures AudioLadder(source) == match ClassOf(source)
      case Cinema => [AudioTarget(source, 8)] + Eac3Rungs()
      case DolbyPlus => Eac3Rungs()
      case Dolby => Ac3Rungs()
      case Compact => [AudioTarget(source, 8)] + AacRungs(true)
      case Aac => AacRungs(true)
      case Mp3 => [AudioTarget("mp3", 2)] + AacRungs(false)
      case Other => AacRungs(false)
  {
  }

  /** So do the audio ladders. */
  lemma AudioForIs(item: Item, v: Device, encoders: seq<Encoder>)
    ensures AudioFor(item, v, encoders) == BestAudio(item, v, encoders)
  {
    var source := item.audioCodec;
    LaddersAre(source);
    match ClassOf(source) {
      case Cinema =>
        FirstAudioOfCons(AudioTarget(source, 8), Eac3Rungs(), item, v, encoders);
        Eac3First(item, v, encoders);
        Ac3First(item, v, encoders);
        AacFirst(true, item, v, encoders);
      case DolbyPlus =>
        Eac3First(item, v, encoders);
        Ac3First(item, v, encoders);
        AacFirst(true, item, v, encoders);
      case Dolby =>
        Ac3First(item, v, encoders);
        AacFirst(true, item, v, encoders);
      case Compact =>
        FirstAudioOfCons(AudioTarget(source, 8), AacRungs(true), item, v, encoders);
        AacFirst(true, item, v, encoders);
      case Mp3 =>
        FirstAudioOfCons(AudioTarget("mp3", 2), AacRungs(false), item, v, encoders);
        AacFirst(false, item, v, encoders);
      case _ =>
        AacFirst(ClassOf(source).Aac?, item, v, encoders);
    }
  }

  lemma HasTargetIff(c: Context, item: Item, v: Device)
    ensures HasTarget(c, item, v) <==> HasBest(c, item, v)
    ensures HasTarget(c, item, v) ==> TargetOf(c, item, v) == BestVideo(item, v, c.server.value).value
  {
    if c.server.Some? {
      VideoTargetIs(ValidSubtitle(item), v, c.server.value);
    }
  }

  // ---------- When the streams are kept ----------

  /**
   With the breaker not open, the video is kept as it is iff the device plays it, the policy lets it
   through, no subtitle is burned in, and either nothing else stands in the way or the server could
   encode some video, which it then need not.
   */
  lemma VideoKeptIff(c: Context, item: Item, v: Device, enc: Option<Encoder>)
    requires c.available
    ensures !Decide(c, item, v, enc).video.needsTranscode <==>
            && PlaysVideo(c.policy, v, item) && !MapsHdr(c.policy, item) && !BurnsIn(c, item, v)
            && (PlaysAsIs(c, item, v) || HasBest(c, item, v))
  {
    PlaysAsIsIff(c, item, v);
    HasTargetIff(c, item, v);
    BurnsInIff(c, item, v);
    PlaysIff(c.policy, v, item);
    VideoIs(c, item, v, enc);
    if PlaysVideo(c.policy, v, item) {
      UntouchedIff(c.policy, item, v);
    }
  }

  /** Where the video comes from. */
  lemma VideoIs(c: Context, item: Item, v: Device, enc: Option<Encoder>)
    requires c.available
    ensures !TriesTranscode(c, item, v) ==> Decide(c, item, v, enc).video == CopiedVideo(item)
    ensures TriesTranscode(c, item, v) && !HasTarget(c, item, v) ==> Decide(c, item, v, enc).video.needsTranscode
    ensures TriesTranscode(c, item, v) && HasTarget(c, item, v) ==>
              (Decide(c, item, v, enc).video.needsTranscode <==> ReencodesVideo(c, item, v))
    ensures !TriesTranscode(c, item, v) ==>
              CanDirectPlayVideo(c.policy, v, item) && HdrUntouched(c.policy, item, v)
  {
    if ReencodesVideo(c, item, v) {
      DecideReencodes(c, item, v, enc);
    } else {
      NotReencoded(c, item, v, enc);
      FallbackVideo(c, item, v, enc);
    }
  }

  /** The audio stays as it is though something else is re-encoded. The device's flags are not looked at. */
  predicate StaysAsIs(item: Item, v: Device) {
    var source, channels := item.audioCodec, item.audioChannels;
    match ClassOf(source)
    case Cinema => Lists(v.audioCodecs, source) && channels <= 8
    case DolbyPlus => Lists(v.audioCodecs, source) && channels <= 8
    case Compact => Lists(v.audioCodecs, source) && channels <= 8
    case Dolby => Lists(v.audioCodecs, source) && channels <= 6
    case Mp3 => Lists(v.audioCodecs, source) && channels <= 2
    case Aac => channels <= if Lists(v.audioCodecs, source) then 6 else 2
    case Other => Equal(source, "aac") && channels <= 2
  }

  lemma NamesApart(a: string, b: string)
    requires a in LADDER_NAMES && b in LADDER_NAMES
    ensures Equal(a, b) <==> a == b
  {
    NamesArePlain();
    EqualPlain(a, b);
  }

  /** The names of the lower rungs, apart from that of the source. */
  lemma LowerNames(source: string)
    ensures var sort := ClassOf(source);
      && (!sort.Other? && source != "aac" ==> !Equal("aac", source))
      && (!sort.Other? && source != "ac3" ==> !Equal("ac3", source))
      && (!sort.Other? && source != "eac3" ==> !Equal("eac3", source))
  {
    if !ClassOf(source).Other? {
      NamesApart("aac", source);
      NamesApart("ac3", source);
      NamesApart("eac3", source);
    }
  }

  lemma ListedSource(item: Item, v: Device, encoders: seq<Encoder>)
    requires Lists(v.audioCodecs, item.audioCodec)
    ensures var source, best, channels := item.audioCodec, BestAudio(item, v, encoders), item.audioChannels;
      match ClassOf(source)
      case Dolby => best == AudioTarget(source, Least(6, channels))
      case Mp3 => best == AudioTarget(source, Least(2, channels))
      case Aac => best == AudioTarget(source, Least(6, channels))
      case Other => best.codec == "aac" && (best.maxChannels == 2 || best.maxChannels == Least(2, channels))
      case _ => best == AudioTarget(source, Least(8, channels))
  {
    assert CanSend(item.audioCodec, item, v, encoders) by { assert Equal(item.audioCodec, item.audioCodec); }
  }

  lemma UnlistedSource(item: Item, v: Device, encoders: seq<Encoder>)
    requires !Lists(v.audioCodecs, item.audioCodec)
    ensures var source, best, channels := item.audioCodec, BestAudio(item, v, encoders), item.audioChannels;
      match ClassOf(source)
      case Aac => best == AudioTarget(source, 2)
      case Other => best.codec == "aac" && (best.maxChannels == 2 || best.maxChannels == Least(2, channels))
      case _ => best.codec in {"eac3", "ac3", "aac"} && best.codec != source
  {
  }

  lemma StaysIff(item: Item, v: Device, encoders: seq<Encoder>)
    ensures KeepsAudio(BestAudio(item, v, encoders), item) <==> StaysAsIs(item, v)
  {
    LowerNames(item.audioCodec);
    if Lists(v.audioCodecs, item.audioCodec) {
      ListedSource(item, v, encoders);
    } else {
      UnlistedSource(item, v, encoders);
    }
  }

  /** The same for the audio. */
  lemma AudioKeptIff(c: Context, item: Item, v: Device, enc: Option<Encoder>)
    requires c.available
    ensures !Decide(c, item, v, enc).audio.needsTranscode <==>
            PlaysAsIs(c, item, v) || (HasBest(c, item, v) && StaysAsIs(item, v))
  {
    PlaysAsIsIff(c, item, v);
    HasTargetIff(c, item, v);
    AudioSent(c, item, v, enc);
  }

  /** What the ladder makes of the audio. */
  function LadderAudio(item: Item, v: Device, encoders: seq<Encoder>): AudioPlan {
    if StaysAsIs(item, v) then AudioPlan(false, item.audioCodec, item.audioChannels, true)
    else
      var best := BestAudio(item, v, encoders);
      AudioPlan(true, best.codec, best.maxChannels, item.audioChannels <= best.maxChannels)
  }

  lemma PlanIs(item: Item, v: Device, encoders: seq<Encoder>)
    ensures PlanAudio(item, AudioFor(item, v, encoders)) == LadderAudio(item, v, encoders)
  {
    AudioForIs(item, v, encoders);
    StaysIff(item, v, encoders);
  }

  lemma SameAudio(item: Item, v: Device, encoders: seq<Encoder>)
    ensures AudioFor(ValidSubtitle(item), v, encoders) == AudioFor(item, v, encoders)
  {
    var valid := ValidSubtitle(item);
    AudioForIs(valid, v, encoders);
    AudioForIs(item, v, encoders);
  }

  /** What is sent of the audio. */
  lemma AudioSent(c: Context, item: Item, v: Device, enc: Option<Encoder>)
    requires c.available
    ensures Decide(c, item, v, enc).audio ==
            if PlaysAsIs(c, item, v) then CopiedAudio(item)
            else if !HasBest(c, item, v) then AudioPlan(true, "aac", 2, false)
            else LadderAudio(item, v, c.server.value)
  {
    assert TriesTranscode(c, item, v) <==> !PlaysAsIs(c, item, v) by { PlaysAsIsIff(c, item, v); }
    assert HasTarget(c, item, v) <==> HasBest(c, item, v) by { HasTargetIff(c, item, v); }
    Delivery.AudioIs(c, item, v, enc);
    if HasTarget(c, item, v) {
      SameAudio(item, v, c.server.value);
      PlanIs(item, v, c.server.value);
    }
  }

  // ---------- The kind of decision ----------

  /** Which decision it is, with the breaker not open. */
  lemma KindIs(c: Context, item: Item, v: Device, enc: Option<Encoder>)
    requires c.available
    ensures var d := Decide(c, item, v, enc);
      d.kind ==
      if PlaysAsIs(c, item, v) then if Lists(v.containers, item.container) then DirectPlay else Remux
      else if !HasBest(c, item, v) then Fallback
      else if !d.video.needsTranscode && !d.audio.needsTranscode then Remux
      else Transcode
    ensures Decide(c, item, v, enc).needsRemux <==> Decide(c, item, v, enc).kind.Remux?
  {
    RemuxFlag(c, item, v, enc);
    PlaysAsIsIff(c, item, v);
    DirectPlayIff(c.policy, item, v);
    BurnsInIff(c, item, v);
    DecideKind(c, item, v, enc);
    SubtitleDoesNotMatter(c.policy, item, v);
    if TriesTranscode(c, item, v) {
      TranscodeKindIs(c, item, v, enc);
    }
  }

  lemma RemuxFlag(c: Context, item: Item, v: Device, enc: Option<Encoder>)
    ensures Decide(c, item, v, enc).needsRemux <==> Decide(c, item, v, enc).kind.Remux?
  {
  }

  lemma TranscodeKindIs(c: Context, item: Item, v: Device, enc: Option<Encoder>)
    requires TriesTranscode(c, item, v)
    ensures var d := Decide(c, item, v, enc);
      d.kind ==
      if !HasBest(c, item, v) then Fallback
      else if !d.video.needsTranscode && !d.audio.needsTranscode then Remux
      else Transcode
  {
    HasTargetIff(c, item, v);
  }

  /** What is sent as it is goes out in the container of the source, or in the first that holds both streams. */
  lemma ContainerOfCopies(c: Context, item: Item, v: Device, enc: Option<Encoder>)
    requires c.available && PlaysAsIs(c, item, v)
    ensures var d := Decide(c, item, v, enc);
      && d.video == VideoPlan(false, item.videoCodec, item.isHDR, false, true, "", false)
      && d.audio == AudioPlan(false, item.audioCodec, item.audioChannels, true)
      && if Lists(v.containers, item.container) then d.container == item.container
         else FirstHolding(v.containers, item.videoCodec, item.audioCodec) == Some(d.container)
  {
    PlaysAsIsIff(c, item, v);
    BurnsInIff(c, item, v);
    DirectPlayIff(c.policy, item, v);
    CopyIs(c, item, v, enc);
  }

  lemma CopyIs(c: Context, item: Item, v: Device, enc: Option<Encoder>)
    requires c.available && !TriesTranscode(c, item, v)
    ensures var d := Decide(c, item, v, enc);
      && d.video == CopiedVideo(item) && d.audio == CopiedAudio(item)
      && if CanDirectPlay(c.policy, item, v) then d.container == item.container
         else RemuxContainer(c.policy, item, v) == Some(d.container)
  {
    SubtitleDoesNotMatter(c.policy, item, v);
    DecisionIsCopy(c, item, v, enc);
  }

  lemma DecisionIsCopy(c: Context, item: Item, v: Device, enc: Option<Encoder>)
    requires c.available && !TriesTranscode(c, item, v)
    ensures var valid := ValidSubtitle(item);
      Decide(c, item, v, enc) ==
      if CanDirectPlay(c.policy, valid, v) then Copied(Prepared(c, item, v), valid, DirectPlay, item.container)
      else Copied(Prepared(c, item, v), valid, Remux, RemuxContainer(c.policy, valid, v).value)
  {
  }

  lemma SubtitleDoesNotMatter(p: Policy, item: Item, v: Device)
    ensures CanDirectPlay(p, ValidSubtitle(item), v) == CanDirectPlay(p, item, v)
    ensures RemuxContainer(p, ValidSubtitle(item), v) == RemuxContainer(p, item, v)
  {
  }

  /** The first container that holds both streams: it does, and none before it does. */
  lemma {:induction false} FirstHoldingIs(containers: seq<string>, video: string, audio: string) returns (i: nat)
    requires FirstHolding(containers, video, audio).Some?
    ensures i < |containers| && FirstHolding(containers, video, audio) == Some(containers[i])
    ensures video in SupportedCodecs(containers[i]) && audio in SupportedCodecs(containers[i])
    ensures forall j :: 0 <= j < i ==>
              !(video in SupportedCodecs(containers[j]) && audio in SupportedCodecs(containers[j]))
    decreases |containers|
  {
    if Holds(containers[0], video, audio) {
      i := 0;
    } else {
      i := FirstHoldingIs(containers[1..], video, audio);
      i := i + 1;
    }
  }

  predicate Suits(name: string, video: string, audio: string, v: Device) {
    Lists(v.containers, name) && video in SupportedCodecs(name) && audio in SupportedCodecs(name)
  }

  /**
   MP4, Matroska, MPEG-TS and WebM are tried in this order; failing all, MPEG-TS if it can hold both
   streams, or MP4.
   */
  function BestContainer(video: string, audio: string, v: Device): string {
    if Suits("mp4", video, audio, v) then "mp4"
    else if Suits("mkv", video, audio, v) then "mkv"
    else if Suits("ts", video, audio, v) then "ts"
    else if Suits("webm", video, audio, v) then "webm"
    else if video in SupportedCodecs("ts") && audio in SupportedCodecs("ts") then "ts"
    else "mp4"
  }

  lemma FirstPreferredOfCons(a: string, rest: seq<string>, video: string, audio: string, v: Device)
    ensures FirstPreferred([a] + rest, video, audio, v) ==
            if Suits(a, video, audio, v) then Some(a) else FirstPreferred(rest, video, audio, v)
  {
    assert ([a] + rest)[1..] == rest;
    ListsIff(v.containers, a);
  }

  lemma ContainerIs(video: string, audio: string, v: Device)
    ensures ContainerFor(video, audio, v) == BestContainer(video, audio, v)
  {
    FirstPreferredOfCons("webm", [], video, audio, v);
    FirstPreferredOfCons("ts", ["webm"], video, audio, v);
    FirstPreferredOfCons("mkv", ["ts"] + ["webm"], video, audio, v);
    FirstPreferredOfCons("mp4", ["mkv"] + (["ts"] + ["webm"]), video, audio, v);
    assert ["webm"] + [] == ["webm"];
    assert ["mp4"] + (["mkv"] + (["ts"] + ["webm"])) == PREFERRED;
  }

  /** A stream that is re-encoded goes out with the other in the best container for both. */
  lemma ContainerOfTranscode(c: Context, item: Item, v: Device, enc: Option<Encoder>)
    requires c.available && !PlaysAsIs(c, item, v)
    ensures var d := Decide(c, item, v, enc);
      if HasBest(c, item, v) then d.container == BestContainer(d.video.target, d.audio.target, v)
      else
        && d.container == "mp4" && d.audio == AudioPlan(true, "aac", 2, false)
        && d.video == VideoPlan(true, "h264", false, false, false, "", false)
  {
    PlaysAsIsIff(c, item, v);
    HasTargetIff(c, item, v);
    var d := Decide(c, item, v, enc);
    ContainerIs(d.video.target, d.audio.target, v);
    if HasTarget(c, item, v) {
      Assembled(c, item, v, enc);
    }
  }

  lemma Assembled(c: Context, item: Item, v: Device, enc: Option<Encoder>)
    requires TriesTranscode(c, item, v) && HasTarget(c, item, v)
    ensures var d := Decide(c, item, v, enc);
      d.container == ContainerFor(d.video.target, d.audio.target, v)
  {
  }

  // ---------- Subtitles ----------

  function ClassOfFormat(format: string): SubtitleType {
    if IsPlainText(format) then Text
    else if IsStyledText(format) then StyledText
    else if IsPicture(format) then Graphical
    else NoSubtitle
  }

  lemma ClassIs(format: string)
    ensures Classify(format) == ClassOfFormat(format)
  {
  }

  /**
   What becomes of the subtitle. One that is known is never lost: plain text is passed on, styled text
   converted, pictures passed on, and what cannot be shown otherwise burned in.
   */
  lemma SubtitleIs(c: Context, item: Item, v: Device)
    ensures var s, format := SubtitleFor(c, item, v), item.subtitleFormat;
      if item.subtitleIndex < -1 || format == "" then s.action.Drop? && s.sourceFormat == "" && s.outputFormat == ""
      else match ClassOfFormat(format)
        case Text => s.action.Passthrough? && s.outputFormat == "vtt" && s.sourceFormat == format
        case NoSubtitle => s.action.Drop? && s.sourceFormat == "" && s.outputFormat == ""
        case sort =>
          && s.sourceFormat == format && s.kind == sort
          && if BurnsIn(c, item, v) then s.action.BurnIn? && s.outputFormat == ""
             else if sort.StyledText? then s.action.ConvertToVTT? && s.outputFormat == "vtt"
             else s.action.Passthrough? && s.outputFormat == ""
    ensures SubtitleFor(c, item, v).streamIndex == if item.subtitleIndex < -1 then -1 else item.subtitleIndex
  {
    ClassIs(item.subtitleFormat);
    BurnsInIff(c, item, v);
    BurnInIff(c, item, v);
  }

  // ---------- HDR of a re-encode ----------

  /** Dolby Vision of a profile whose base layer is HDR10, and a device that knows neither. */
  predicate LosesBase(item: Item, v: Device) {
    && item.isDolbyVision && (item.dolbyVisionProfile == "7" || item.dolbyVisionProfile == "8")
    && !v.supportsDolbyVision && !v.supportsHDR
  }

  /** The policy keeps HDR for the device. */
  predicate WantsHdr(p: Policy, item: Item, v: Device) {
    item.isHDR && !LosesBase(item, v) && (if v.supportsHDR then p.hdr != AlwaysToneMap else p.hdr == NeverToneMap)
  }

  /**
   What a re-encode does about HDR: it keeps what the policy wants kept, if the encoder can; it maps
   every other HDR source, and Dolby Vision that loses its base layer; and it leaves the rest alone.
   So a policy of never mapping is not kept where the base layer is lost or the encoder has no HDR.
   */
  lemma HdrOfReencode(c: Context, item: Item, v: Device, enc: Option<Encoder>)
    requires ReencodesVideo(c, item, v)
    ensures var video := Decide(c, item, v, enc).video;
      && (video.hdrPreserved <==> WantsHdr(c.policy, item, v) && (enc.Some? ==> enc.value.supportsHDR))
      && (video.toneMapped <==> !video.hdrPreserved && (item.isHDR || LosesBase(item, v)))
      && video.bitDepthPreserved == !video.toneMapped
      && BestVideo(item, v, c.server.value) == Some(video.target)
      && video.encoderUsed == (if enc.Some? then enc.value.name else "")
      && (video.hardwareUsed <==> enc.Some? && enc.value.isHardware)
  {
    DecideReencodes(c, item, v, enc);
    HasTargetIff(c, item, v);
  }

  // ---------- The open breaker ----------

  /** With the breaker open, what cannot be played directly is said to be played directly, without a target. */
  lemma OpenBreakerSaysNothing(c: Context, item: Item, v: Device, enc: Option<Encoder>)
    requires !c.available
    ensures var d := Decide(c, item, v, enc);
      var plays := PlaysVideo(c.policy, v, item) && PlaysAudio(v, item) && !MapsHdr(c.policy, item) &&
        Lists(v.containers, item.container);
      && d.kind.DirectPlay?
      && d.video == (if plays then VideoPlan(false, item.videoCodec, item.isHDR, false, true, "", false)
                     else VideoPlan(false, "", false, false, false, "", false))
      && d.audio == (if plays then AudioPlan(false, item.audioCodec, item.audioChannels, true)
                     else AudioPlan(false, "", 0, false))
      && d.container == (if plays then item.container else "") && !d.subtitle.forcesBurnIn
  {
    OpenBreakerDegrades(c, item, v, enc);
    DirectPlayIff(c.policy, item, v);
    OpenContainer(c, item, v, enc);
  }

  lemma OpenContainer(c: Context, item: Item, v: Device, enc: Option<Encoder>)
    requires !c.available
    ensures Decide(c, item, v, enc).container == if CanDirectPlay(c.policy, item, v) then item.container else ""
  {
  }
}
