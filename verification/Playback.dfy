/**
 The transcode decision on values: what a device can play, the fallback ladders, the subtitle
 rules, and the decision that follows from them.

 The texts in Reasons, the media id and the timing are not modelled. Which encoder is selected is a
 parameter, because several can tie for the best score; see Encoders.
 */
module Playback {
  import opened Options
  import opened Codec
  import opened Encoders

  datatype HdrPolicy = BestForDevice | AlwaysToneMap | NeverToneMap

  datatype ToneMapping = High | Medium | Fast

  datatype Policy = Policy(hdr: HdrPolicy, toneMapping: ToneMapping, minTrustForDirectPlay: real)

  datatype Item = Item(
    videoCodec: string, audioCodec: string, container: string,
    width: int, height: int, bitrate: int, audioChannels: int,
    isHDR: bool, isDolbyVision: bool, dolbyVisionProfile: string, isDolbyAtmos: bool,
    interlaced: bool, pixelAspectRatio: real,
    subtitleFormat: string, subtitleIndex: int)

  datatype Device = Device(
    videoCodecs: seq<string>, audioCodecs: seq<string>, subtitleFormats: seq<string>, containers: seq<string>,
    maxWidth: int, maxHeight: int, maxBitrate: int,
    supportsHDR: bool, supportsDolbyVision: bool, supportsDolbyAtmos: bool, supportsDTS: bool,
    trust: real)

  // ---------- What a device can play ----------

  predicate ContainsCodec(list: seq<string>, name: string) {
    exists i :: 0 <= i < |list| && Equal(list[i], name)
  }

  /** A limit of zero or less is none. */
  predicate Within(size: int, limit: int) {
    limit <= 0 || size <= limit
  }

  predicate CanDirectPlayVideo(p: Policy, v: Device, item: Item) {
    && v.trust >= p.minTrustForDirectPlay
    && ContainsCodec(v.videoCodecs, item.videoCodec)
    && Within(item.width, v.maxWidth)
    && Within(item.height, v.maxHeight)
    && Within(item.bitrate, v.maxBitrate)
    && (item.isHDR ==> v.supportsHDR)
    && (item.isDolbyVision ==> v.supportsDolbyVision)
  }

  predicate CanDirectPlayAudio(v: Device, item: Item) {
    && ContainsCodec(v.audioCodecs, item.audioCodec)
    && (Equal(item.audioCodec, "dts") || Equal(item.audioCodec, "dts-hd") ==> v.supportsDTS)
    && (item.isDolbyAtmos ==> v.supportsDolbyAtmos)
  }

  // ---------- Ladders ----------

  function VideoLadder(source: string): seq<string> {
    if source == "av1" || source == "hevc" || source == "vp9" then ["hevc", "vp9", "h264"]
    else if source == "vp8" then ["vp9", "h264"]
    else ["h264"]
  }

  datatype AudioTarget = AudioTarget(codec: string, maxChannels: int)

  function AudioLadder(source: string): (r: seq<AudioTarget>)
    ensures |r| > 0
  {
    if source == "truehd" || source == "dts" then
      [AudioTarget(source, 8), AudioTarget("eac3", 8), AudioTarget("eac3", 6), AudioTarget("ac3", 6),
       AudioTarget("aac", 6), AudioTarget("aac", 2)]
    else if source == "eac3" then
      [AudioTarget("eac3", 8), AudioTarget("eac3", 6), AudioTarget("ac3", 6),
       AudioTarget("aac", 6), AudioTarget("aac", 2)]
    else if source == "ac3" then
      [AudioTarget("ac3", 6), AudioTarget("aac", 6), AudioTarget("aac", 2)]
    else if source == "flac" || source == "alac" || source == "opus" then
      [AudioTarget(source, 8), AudioTarget("aac", 6), AudioTarget("aac", 2)]
    else if source == "aac" then
      [AudioTarget("aac", 6), AudioTarget("aac", 2)]
    else if source == "mp3" then
      [AudioTarget("mp3", 2), AudioTarget("aac", 2)]
    else
      [AudioTarget("aac", 2)]
  }

  // ---------- Subtitles ----------

  datatype SubtitleType = Text | StyledText | Graphical | NoSubtitle

  datatype SubtitleAction = Passthrough | ConvertToVTT | BurnIn | Drop

  datatype Subtitle = Subtitle(
    kind: SubtitleType, sourceFormat: string, action: SubtitleAction, outputFormat: string, forcesBurnIn: bool,
    streamIndex: int)

  /** The zero value of SubtitleDecision. */
  const UNDECIDED := Subtitle(Text, "", Passthrough, "", false, 0)

  function Classify(format: string): SubtitleType {
    if Equal(format, "srt") || Equal(format, "vtt") || Equal(format, "subrip") then Text
    else if Equal(format, "ass") || Equal(format, "ssa") then StyledText
    else if Equal(format, "pgs") || Equal(format, "hdmv_pgs_subtitle") || Equal(format, "vobsub") ||
            Equal(format, "dvbsub") || Equal(format, "dvb_subtitle") || Equal(format, "dvdsub") then Graphical
    else NoSubtitle
  }

  function DecideSubtitle(format: string, deviceSupports: bool, burnInStyled: bool): Subtitle {
    if format == "" then Subtitle(NoSubtitle, "", Drop, "", false, 0)
    else match Classify(format)
      case Text => Subtitle(Text, format, Passthrough, "vtt", false, 0)
      case StyledText =>
        if burnInStyled then Subtitle(StyledText, format, BurnIn, "", true, 0)
        else Subtitle(StyledText, format, ConvertToVTT, "vtt", false, 0)
      case Graphical =>
        if deviceSupports then Subtitle(Graphical, format, Passthrough, "", false, 0)
        else Subtitle(Graphical, format, BurnIn, "", true, 0)
      case NoSubtitle => Subtitle(NoSubtitle, "", Drop, "", false, 0)
  }

  // ---------- Decisions ----------

  datatype Kind = DirectPlay | Remux | Transcode | Fallback

  /** The fields of a decision that are about the video stream. */
  datatype VideoPlan = VideoPlan(
    needsTranscode: bool, target: string, hdrPreserved: bool, toneMapped: bool, bitDepthPreserved: bool,
    encoderUsed: string, hardwareUsed: bool)

  /** The fields of a decision that are about the audio stream. */
  datatype AudioPlan = AudioPlan(needsTranscode: bool, target: string, channels: int, channelsPreserved: bool)

  datatype Decision = Decision(
    kind: Kind, source: Item, trust: real,
    video: VideoPlan, audio: AudioPlan, container: string, needsRemux: bool, subtitle: Subtitle)

  const NO_VIDEO := VideoPlan(false, "", false, false, false, "", false)

  const NO_AUDIO := AudioPlan(false, "", 0, false)

  /** The decision before anything is decided: source fields filled in, everything else zero. */
  function Undecided(item: Item, v: Device): Decision {
    Decision(DirectPlay, item, v.trust, NO_VIDEO, NO_AUDIO, "", false, UNDECIDED)
  }

  /** What a decision depends on besides item and device. No server capabilities means none are known. */
  datatype Context = Context(policy: Policy, burnInStyled: bool, server: Option<seq<Encoder>>, available: bool)

  /** An index below -1 is invalid, and makes Decide ignore the subtitle. */
  function ValidSubtitle(item: Item): Item {
    if item.subtitleIndex < -1 then item.(subtitleIndex := -1, subtitleFormat := "") else item
  }

  function SubtitleFor(c: Context, item: Item, v: Device): Subtitle {
    var valid := ValidSubtitle(item);
    DecideSubtitle(valid.subtitleFormat, ContainsCodec(v.subtitleFormats, valid.subtitleFormat), c.burnInStyled)
      .(streamIndex := valid.subtitleIndex)
  }

  /** The HDR policy lets the video through untouched. */
  predicate HdrUntouched(p: Policy, item: Item, v: Device) {
    item.isHDR ==> !p.hdr.AlwaysToneMap? && (p.hdr.BestForDevice? ==> v.supportsHDR)
  }

  predicate CanDirectPlay(p: Policy, item: Item, v: Device) {
    && CanDirectPlayVideo(p, v, item)
    && CanDirectPlayAudio(v, item)
    && ContainsCodec(v.containers, item.container)
    && HdrUntouched(p, item, v)
  }

  function CopiedVideo(item: Item): VideoPlan {
    VideoPlan(false, item.videoCodec, item.isHDR, false, true, "", false)
  }

  function CopiedAudio(item: Item): AudioPlan {
    AudioPlan(false, item.audioCodec, item.audioChannels, true)
  }

  /** All streams are copied. */
  function Copied(d: Decision, item: Item, kind: Kind, container: string): Decision {
    d.(kind := kind, needsRemux := kind.Remux?,
       video := CopiedVideo(item), audio := CopiedAudio(item), container := container)
  }

  predicate Holds(container: string, video: string, audio: string) {
    CanContainerContain(container, video) && CanContainerContain(container, audio)
  }

  /** findCompatibleContainer: the first container of the list that holds both codecs. */
  function FirstHolding(containers: seq<string>, video: string, audio: string): Option<string> {
    if containers == [] then None
    else if Holds(containers[0], video, audio) then Some(containers[0])
    else FirstHolding(containers[1..], video, audio)
  }

  function RemuxContainer(p: Policy, item: Item, v: Device): Option<string> {
    if CanDirectPlayVideo(p, v, item) && CanDirectPlayAudio(v, item) && HdrUntouched(p, item, v)
    then FirstHolding(v.containers, item.videoCodec, item.audioCodec)
    else None
  }

  /** The first rung that the device supports and the server can encode. */
  function FirstRung(ladder: seq<string>, v: Device, encoders: seq<Encoder>): Option<string> {
    if ladder == [] then None
    else if ContainsCodec(v.videoCodecs, ladder[0]) && CanEncode(encoders, ladder[0]) then Some(ladder[0])
    else FirstRung(ladder[1..], v, encoders)
  }

  function VideoTarget(item: Item, v: Device, encoders: seq<Encoder>): Option<string> {
    var rung := FirstRung(VideoLadder(item.videoCodec), v, encoders);
    if rung.Some? then rung
    else if CanEncode(encoders, "h264") then Some("h264")
    else None
  }

  /** Dolby Vision with an HDR10 base layer, on a device without HDR. */
  predicate LosesBaseLayer(item: Item, v: Device) {
    && item.isDolbyVision && !v.supportsDolbyVision
    && (item.dolbyVisionProfile == "7" || item.dolbyVisionProfile == "8")
    && !v.supportsHDR
  }

  predicate NeedsToneMap(p: Policy, item: Item, v: Device) {
    || (item.isHDR && (p.hdr.AlwaysToneMap? || (p.hdr.BestForDevice? && !v.supportsHDR)))
    || LosesBaseLayer(item, v)
  }

  predicate NeedsHDR(p: Policy, item: Item, v: Device) {
    item.isHDR && (p.hdr.NeverToneMap? || (p.hdr.BestForDevice? && v.supportsHDR)) && !LosesBaseLayer(item, v)
  }

  predicate CopiesVideo(p: Policy, item: Item, v: Device, burnIn: bool) {
    CanDirectPlayVideo(p, v, item) && !NeedsToneMap(p, item, v) && !burnIn
  }

  /** The video half of buildTranscode, with the encoder that was selected for the target codec. */
  function PlanVideo(p: Policy, item: Item, v: Device, burnIn: bool, target: string, enc: Option<Encoder>): VideoPlan {
    if CopiesVideo(p, item, v, burnIn) then CopiedVideo(item)
    else
      var name := if enc.Some? then enc.value.name else "";
      var hardware := enc.Some? && enc.value.isHardware;
      var lacksHDR := NeedsHDR(p, item, v) && enc.Some? && !enc.value.supportsHDR;
      if NeedsHDR(p, item, v) && !lacksHDR then VideoPlan(true, target, true, false, true, name, hardware)
      else if NeedsToneMap(p, item, v) || lacksHDR then VideoPlan(true, target, false, true, false, name, hardware)
      else VideoPlan(true, target, false, false, true, name, hardware)
  }

  predicate UsableAudio(t: AudioTarget, item: Item, v: Device, encoders: seq<Encoder>) {
    ContainsCodec(v.audioCodecs, t.codec) && (CanEncode(encoders, t.codec) || Equal(t.codec, item.audioCodec))
  }

  function FirstAudio(ladder: seq<AudioTarget>, item: Item, v: Device, encoders: seq<Encoder>): Option<AudioTarget> {
    if ladder == [] then None
    else if UsableAudio(ladder[0], item, v, encoders) then Some(ladder[0])
    else FirstAudio(ladder[1..], item, v, encoders)
  }

  /** selectAudioTarget: codec and channel count. */
  function AudioFor(item: Item, v: Device, encoders: seq<Encoder>): AudioTarget {
    match FirstAudio(AudioLadder(item.audioCodec), item, v, encoders)
    case Some(t) => t.(maxChannels := if t.maxChannels > item.audioChannels then item.audioChannels else t.maxChannels)
    case None => AudioTarget("aac", 2)
  }

  predicate KeepsAudio(t: AudioTarget, item: Item) {
    Equal(t.codec, item.audioCodec) && t.maxChannels >= item.audioChannels
  }

  /** The audio half of buildTranscode, for the selected codec and channel count. */
  function PlanAudio(item: Item, t: AudioTarget): AudioPlan {
    if KeepsAudio(t, item) then CopiedAudio(item)
    else AudioPlan(true, t.codec, t.maxChannels, t.maxChannels >= item.audioChannels)
  }

  const PREFERRED := ["mp4", "mkv", "ts", "webm"]

  /** The first preferred container that the device supports and that holds both codecs. */
  function FirstPreferred(preferred: seq<string>, video: string, audio: string, v: Device): Option<string> {
    if preferred == [] then None
    else if ContainsCodec(v.containers, preferred[0]) && Holds(preferred[0], video, audio) then Some(preferred[0])
    else FirstPreferred(preferred[1..], video, audio, v)
  }

  /** selectContainer */
  function ContainerFor(video: string, audio: string, v: Device): string {
    match FirstPreferred(PREFERRED, video, audio, v)
    case Some(c) => c
    case None => if Holds("ts", video, audio) then "ts" else "mp4"
  }

  function AbsoluteFallback(d: Decision): Decision {
    d.(kind := Fallback, container := "mp4",
       video := d.video.(needsTranscode := true, target := "h264"),
       audio := d.audio.(needsTranscode := true, target := "aac", channels := 2))
  }

  /** The last lines of buildTranscode: container and decision type. */
  function Assemble(d: Decision, v: Device, video: VideoPlan, audio: AudioPlan): Decision {
    var placed := d.(video := video, audio := audio, container := ContainerFor(video.target, audio.target, v));
    if video.needsTranscode || audio.needsTranscode then placed.(kind := Transcode)
    else placed.(kind := Remux, needsRemux := true)
  }

  function BuildTranscode(d: Decision, c: Context, item: Item, v: Device, enc: Option<Encoder>): Decision {
    if c.server.None? then AbsoluteFallback(d)
    else
      var target := VideoTarget(item, v, c.server.value);
      if target.None? then AbsoluteFallback(d)
      else
        Assemble(d, v,
                 PlanVideo(c.policy, item, v, d.subtitle.forcesBurnIn, target.value, enc),
                 PlanAudio(item, AudioFor(item, v, c.server.value)))
  }

  /** Decide. While the breaker is open nothing but direct play is tried, and failing that changes nothing. */
  function Decide(c: Context, item: Item, v: Device, enc: Option<Encoder>): Decision {
    var start := Undecided(item, v);
    if !c.available then
      if CanDirectPlay(c.policy, item, v) then Copied(start, item, DirectPlay, item.container) else start
    else
      var valid := ValidSubtitle(item);
      var d := start.(subtitle := SubtitleFor(c, item, v));
      var remux := RemuxContainer(c.policy, valid, v);
      if !d.subtitle.forcesBurnIn && CanDirectPlay(c.policy, valid, v)
      then Copied(d, valid, DirectPlay, valid.container)
      else if !d.subtitle.forcesBurnIn && remux.Some? then Copied(d, valid, Remux, remux.value)
      else BuildTranscode(d, c, valid, v, enc)
  }

  /** `enc` is an encoder that the selector may return when Decide asks it. */
  ghost predicate MaySelect(c: Context, item: Item, v: Device, enc: Option<Encoder>) {
    c.server.Some? && VideoTarget(item, v, c.server.value).Some? ==>
      IsSelected(c.server.value, VideoTarget(item, v, c.server.value).value,
                 NeedsHDR(c.policy, item, v), NeedsHDR(c.policy, item, v), enc)
  }
}
