/**
 From a decision to the FFmpeg command line: which arguments are built, the object that collects
 them, and what the command then carries.
 */
module FFmpeg {
  import opened Options
  import opened Encoders
  import opened Playback
  import opened PlaybackTheorems
  import Decimal

  // ---------- Arguments ----------

  /** The video filters that are ever used. */
  datatype Filter = Deinterlace | SquarePixels | ToneMap(quality: ToneMapping) | Subtitles(index: int)

  /** A named option of a filter; a positional one has no name. */
  datatype FilterOption = FilterOption(key: string, value: string)

  /** One filter as FFmpeg knows it. */
  datatype Step = Step(name: string, options: seq<FilterOption>)

  const TO_LINEAR := [
    Step("zscale", [FilterOption("t", "linear"), FilterOption("npl", "100")]),
    Step("format", [FilterOption("", "gbrpf32le")]),
    Step("zscale", [FilterOption("p", "bt709")])]

  const TO_BT709 := [
    Step("zscale", [FilterOption("t", "bt709"), FilterOption("m", "bt709"), FilterOption("r", "tv")]),
    Step("format", [FilterOption("", "yuv420p")])]

  function Tonemap(curve: string): Step {
    Step("tonemap", [FilterOption("", curve), FilterOption("desat", "0")])
  }

  function Steps(f: Filter): seq<Step> {
    match f
    case Deinterlace =>
      [Step("bwdif", [
        FilterOption("mode", "send_frame"), FilterOption("parity", "auto"), FilterOption("deint", "all")])]
    case SquarePixels => [Step("setsar", [FilterOption("", "1")])]
    case ToneMap(High) =>
      [Step("libplacebo", [
        FilterOption("tonemapping", "bt.2390"), FilterOption("colorspace", "bt709"),
        FilterOption("color_primaries", "bt709"), FilterOption("color_trc", "bt709"),
        FilterOption("format", "yuv420p")])]
    case ToneMap(Medium) => TO_LINEAR + [Tonemap("hable")] + TO_BT709
    case ToneMap(Fast) => TO_LINEAR + [Tonemap("reinhard")] + TO_BT709
    case Subtitles(index) => [Step("subtitles", [FilterOption("si", Decimal.Print(index))])]
  }

  /** strings.Join */
  function Join(parts: seq<string>, separator: string): string {
    if parts == [] then ""
    else if |parts| == 1 then parts[0]
    else parts[0] + separator + Join(parts[1..], separator)
  }

  function OptionText(o: FilterOption): string {
    if o.key == "" then o.value else o.key + "=" + o.value
  }

  function StepText(s: Step): string {
    s.name + "=" + Join(seq(|s.options|, i requires 0 <= i < |s.options| => OptionText(s.options[i])), ":")
  }

  function StepTexts(steps: seq<Step>): (r: seq<string>)
    ensures |r| == |steps| && forall i :: 0 <= i < |r| ==> r[i] == StepText(steps[i])
  {
    seq(|steps|, i requires 0 <= i < |steps| => StepText(steps[i]))
  }

  function Text(f: Filter): string {
    Join(StepTexts(Steps(f)), ",")
  }

  datatype Args = Args(
    input: seq<string>, videoFilters: seq<Filter>, videoEncoder: string, videoArgs: seq<string>,
    audioEncoder: string, audioArgs: seq<string>, outputFormat: string, outputArgs: seq<string>,
    subtitleArgs: seq<string>)

  const EMPTY := Args([], [], "", [], "", [], "", [], [])

  /** What BuildFFmpegArgs returns: nothing to run, the arguments, or a bad subtitle stream index. */
  datatype Built = NothingToRun | Ready(args: Args) | BadStreamIndex(index: int)

  // ---------- Video ----------

  predicate IsAnamorphic(item: Item) {
    item.pixelAspectRatio > 0.0 && (item.pixelAspectRatio - 1.0 > 0.001 || 1.0 - item.pixelAspectRatio > 0.001)
  }

  function LegacyFilters(item: Item): seq<Filter> {
    (if item.interlaced then [Deinterlace] else []) + (if IsAnamorphic(item) then [SquarePixels] else [])
  }

  predicate AppliesToneMap(d: Decision) {
    d.source.isHDR && !d.video.hdrPreserved && d.video.toneMapped
  }

  predicate Mentions(name: string, part: string)
    decreases |name|
  {
    part <= name || (name != "" && Mentions(name[1..], part))
  }

  function HdrArgs(enc: Option<Encoder>): seq<string> {
    ["-color_primaries", "bt2020", "-color_trc", "smpte2084", "-colorspace", "bt2020nc"] +
    if enc.None? || !enc.value.isHardware then []
    else if Mentions(enc.value.name, "nvenc") then ["-rc", "constqp"]
    else if Mentions(enc.value.name, "vaapi") then []
    else if Mentions(enc.value.name, "videotoolbox") then ["-allow_sw", "1"]
    else []
  }

  const SDR_ARGS := ["-color_primaries", "bt709", "-color_trc", "bt709", "-colorspace", "bt709"]

  function PresetArgs(enc: Option<Encoder>): seq<string> {
    if enc.None? then ["-preset", "fast"]
    else
      var name := enc.value.name;
      if Mentions(name, "nvenc") then ["-preset", "p4", "-tune", "hq"]
      else if Mentions(name, "qsv") then ["-preset", "faster"]
      else if Mentions(name, "vaapi") then []
      else if Mentions(name, "videotoolbox") then ["-realtime", "1"]
      else if name == "libx264" then ["-preset", "fast", "-crf", "23"]
      else if name == "libx265" then ["-preset", "fast", "-crf", "28"]
      else if name == "libsvtav1" then ["-preset", "8", "-crf", "30"]
      else []
  }

  function ColorArgs(d: Decision, enc: Option<Encoder>): seq<string> {
    if d.source.isHDR && d.video.hdrPreserved then HdrArgs(enc)
    else if AppliesToneMap(d) then SDR_ARGS
    else []
  }

  const TEN_BIT := "p010le"

  function PixelFormat(d: Decision): seq<string> {
    ["-pix_fmt", if d.video.hdrPreserved then TEN_BIT else "yuv420p"]
  }

  /** The filter of buildToneMappingArgs. */
  function MapFilter(d: Decision, p: Policy): seq<Filter> {
    if AppliesToneMap(d) then [ToneMap(p.toneMapping)] else []
  }

  /** buildVideoArgs */
  function WithVideo(a: Args, d: Decision, enc: Option<Encoder>, p: Policy): Args {
    if !d.video.needsTranscode then a
    else a.(
      videoEncoder := if enc.None? then "libx264" else enc.value.name,
      videoFilters := a.videoFilters + LegacyFilters(d.source) + MapFilter(d, p),
      videoArgs := a.videoArgs + ColorArgs(d, enc) + PixelFormat(d) + PresetArgs(enc))
  }

  // ---------- Audio ----------

  function AacBitrate(channels: int): string {
    if channels >= 8 then "512k" else if channels >= 6 then "384k" else "256k"
  }

  function Eac3Bitrate(channels: int): string {
    if channels >= 8 then "1024k" else if channels >= 6 then "640k" else "384k"
  }

  /** Encoder and bitrate, by an exact match of the target codec. */
  function AudioEncoderFor(plan: AudioPlan): (string, seq<string>) {
    if plan.target == "aac" then ("aac", ["-b:a", AacBitrate(plan.channels)])
    else if plan.target == "eac3" then ("eac3", ["-b:a", Eac3Bitrate(plan.channels)])
    else if plan.target == "ac3" then ("ac3", ["-b:a", "640k"])
    else if plan.target == "opus" then ("libopus", ["-b:a", "256k"])
    else if plan.target == "flac" then ("flac", [])
    else if plan.target == "mp3" then ("libmp3lame", ["-b:a", "320k"])
    else ("aac", ["-b:a", "256k"])
  }

  /** buildAudioArgs */
  function WithAudio(a: Args, d: Decision): Args {
    if !d.audio.needsTranscode then a
    else
      var (encoder, bitrate) := AudioEncoderFor(d.audio);
      var channels := if d.audio.channels > 0 then ["-ac", Decimal.Print(d.audio.channels)] else [];
      a.(audioEncoder := encoder, audioArgs := a.audioArgs + bitrate + channels)
  }

  // ---------- Subtitles and output ----------

  /** The subtitle is to be burned in but no stream is selected. */
  predicate BadStream(d: Decision) {
    d.subtitle.action.BurnIn? && d.subtitle.streamIndex < 0
  }

  /** Pictures and styled text are burned in by a filter. */
  function BurnFilter(d: Decision): seq<Filter> {
    if d.subtitle.action.BurnIn? && (d.subtitle.kind.Graphical? || d.subtitle.kind.StyledText?)
    then [Subtitles(d.subtitle.streamIndex)] else []
  }

  /** buildSubtitleArgs, for a stream index that is not rejected. */
  function WithSubtitle(a: Args, d: Decision): Args {
    a.(videoFilters := a.videoFilters + BurnFilter(d), subtitleArgs := a.subtitleArgs + ["-sn"])
  }

  function FormatOf(container: string): string {
    if container == "mkv" then "matroska"
    else if container == "ts" then "mpegts"
    else if container == "webm" then "webm"
    else if container == "mov" then "mov"
    else "mp4"
  }

  /** BuildFFmpegArgs */
  function BuildArgs(d: Decision, enc: Option<Encoder>, p: Policy): Built {
    match d.kind
    case DirectPlay => NothingToRun
    case Remux => Ready(EMPTY.(outputFormat := d.container))
    case _ =>
      if BadStream(d) then BadStreamIndex(d.subtitle.streamIndex)
      else
        var args := WithSubtitle(WithAudio(WithVideo(EMPTY, d, enc, p), d), d);
        Ready(args.(outputFormat := FormatOf(d.container)))
  }

  // ---------- The command line ----------

  function Texts(filters: seq<Filter>): (r: seq<string>)
    ensures |r| == |filters| && forall i :: 0 <= i < |r| ==> r[i] == Text(filters[i])
  {
    seq(|filters|, i requires 0 <= i < |filters| => Text(filters[i]))
  }

  function VideoPart(a: Args): seq<string> {
    if a.videoEncoder == "" then ["-c:v", "copy"]
    else
      ["-c:v", a.videoEncoder] +
      (if a.videoFilters == [] then [] else ["-vf", Join(Texts(a.videoFilters), ",")]) +
      a.videoArgs
  }

  function AudioPart(a: Args): seq<string> {
    if a.audioEncoder == "" then ["-c:a", "copy"] else ["-c:a", a.audioEncoder] + a.audioArgs
  }

  /** What follows the video arguments. */
  function Tail(a: Args, outputPath: string): seq<string> {
    AudioPart(a) + a.subtitleArgs +
    (if a.outputFormat == "" then [] else ["-f", a.outputFormat]) + a.outputArgs + [outputPath]
  }

  /** Build */
  function Command(a: Args, inputPath: string, outputPath: string): seq<string> {
    a.input + ["-i", inputPath] + VideoPart(a) + Tail(a, outputPath)
  }

  // ---------- The argument object ----------

  class FFmpegArgs {
    var input: seq<string>
    var videoFilters: seq<Filter>
    var videoEncoder: string
    var videoArgs: seq<string>
    var audioEncoder: string
    var audioArgs: seq<string>
    var outputFormat: string
    var outputArgs: seq<string>
    var subtitleArgs: seq<string>

    ghost function View(): Args
      reads this
    {
      Args(input, videoFilters, videoEncoder, videoArgs, audioEncoder, audioArgs,
           outputFormat, outputArgs, subtitleArgs)
    }

    constructor ()
      ensures View() == EMPTY
    {
      input, videoFilters, videoEncoder, videoArgs := [], [], "", [];
      audioEncoder, audioArgs, outputFormat, outputArgs, subtitleArgs := "", [], "", [], [];
    }

    method BuildVideoArgs(d: Decision, enc: Option<Encoder>, p: Policy)
      modifies this
      ensures View() == WithVideo(old(View()), d, enc, p)
    {
      if !d.video.needsTranscode {
        return;
      }
      videoEncoder := if enc.None? then "libx264" else enc.value.name;
      videoFilters := videoFilters + LegacyFilters(d.source);
      if d.source.isHDR {
        if d.video.hdrPreserved {
          videoArgs := videoArgs + HdrArgs(enc);
        } else if d.video.toneMapped {
          videoFilters := videoFilters + [ToneMap(p.toneMapping)];
          videoArgs := videoArgs + SDR_ARGS;
        }
      }
      assert videoArgs == old(videoArgs) + ColorArgs(d, enc);
      assert videoFilters == old(videoFilters) + LegacyFilters(d.source) + MapFilter(d, p);
      videoArgs := videoArgs + PixelFormat(d);
      videoArgs := videoArgs + PresetArgs(enc);
    }

    method BuildAudioArgs(d: Decision)
      modifies this
      ensures View() == WithAudio(old(View()), d)
    {
      if !d.audio.needsTranscode {
        return;
      }
      var (encoder, bitrate) := AudioEncoderFor(d.audio);
      audioEncoder := encoder;
      audioArgs := audioArgs + bitrate;
      if d.audio.channels > 0 {
        audioArgs := audioArgs + ["-ac", Decimal.Print(d.audio.channels)];
      }
    }

    /** false is the error for a negative stream index. */
    method BuildSubtitleArgs(d: Decision) returns (ok: bool)
      modifies this
      ensures ok == !BadStream(d)
      ensures View() == if ok then WithSubtitle(old(View()), d) else old(View())
    {
      if d.subtitle.action.BurnIn? {
        if d.subtitle.streamIndex < 0 {
          return false;
        }
        match d.subtitle.kind {
          case Graphical => videoFilters := videoFilters + [Subtitles(d.subtitle.streamIndex)];
          case StyledText => videoFilters := videoFilters + [Subtitles(d.subtitle.streamIndex)];
          case _ =>
        }
        subtitleArgs := subtitleArgs + ["-sn"];
      } else {
        subtitleArgs := subtitleArgs + ["-sn"];
      }
      return true;
    }

    method Build(inputPath: string, outputPath: string) returns (args: seq<string>)
      ensures args == Command(View(), inputPath, outputPath)
    {
      args := input;
      args := args + ["-i", inputPath];
      var video := ["-c:v", "copy"];
      if videoEncoder != "" {
        video := ["-c:v", videoEncoder];
        if |videoFilters| > 0 {
          video := video + ["-vf", Join(Texts(videoFilters), ",")];
        }
        video := video + videoArgs;
      }
      assert video == VideoPart(View());
      args := args + video;
      var audio := ["-c:a", "copy"];
      if audioEncoder != "" {
        audio := ["-c:a", audioEncoder];
        audio := audio + audioArgs;
      }
      assert audio == AudioPart(View());
      var tail := audio;
      tail := tail + subtitleArgs;
      var format := [];
      if outputFormat != "" {
        format := ["-f", outputFormat];
      }
      tail := tail + format;
      tail := tail + outputArgs;
      tail := tail + [outputPath];
      assert tail == Tail(View(), outputPath);
      args := args + tail;
    }
  }

  /** BuildFFmpegArgs: no object and no error is `NothingToRun`. */
  method BuildFFmpegArgs(d: Decision, enc: Option<Encoder>, p: Policy) returns (args: FFmpegArgs?, error: Option<int>)
    ensures match BuildArgs(d, enc, p)
      case NothingToRun => args == null && error == None
      case BadStreamIndex(index) => args == null && error == Some(index)
      case Ready(a) => args != null && fresh(args) && args.View() == a && error == None
  {
    args, error := null, None;
    if d.kind.DirectPlay? {
      return;
    }
    var a := new FFmpegArgs();
    if d.kind.Remux? {
      a.outputFormat := d.container;
      args := a;
      return;
    }
    a.BuildVideoArgs(d, enc, p);
    a.BuildAudioArgs(d);
    var ok := a.BuildSubtitleArgs(d);
    if !ok {
      error := Some(d.subtitle.streamIndex);
      return;
    }
    a.outputFormat := FormatOf(d.container);
    args := a;
  }

  // ---------- What the command carries ----------

  /** How often the video is tone-mapped. */
  function ToneMaps(filters: seq<Filter>): nat {
    if filters == [] then 0 else (if filters[0].ToneMap? then 1 else 0) + ToneMaps(filters[1..])
  }

  lemma {:induction false} ToneMapsOf(a: seq<Filter>, b: seq<Filter>)
    ensures ToneMaps(a + b) == ToneMaps(a) + ToneMaps(b)
    decreases |a|
  {
    if a == [] {
      assert a + b == b;
    } else {
      assert (a + b)[1..] == a[1..] + b;
      ToneMapsOf(a[1..], b);
    }
  }

  predicate LooksTenBit(s: string) {
    |s| == 6 && s[0] == 'p'
  }

  lemma OthersAreNotTenBit(d: Decision, enc: Option<Encoder>)
    ensures forall i :: 0 <= i < |ColorArgs(d, enc)| ==> !LooksTenBit(ColorArgs(d, enc)[i])
    ensures forall i :: 0 <= i < |PresetArgs(enc)| ==> !LooksTenBit(PresetArgs(enc)[i])
  {
  }

  lemma TenBitIffHdr(d: Decision, enc: Option<Encoder>)
    ensures TEN_BIT in ColorArgs(d, enc) + PixelFormat(d) + PresetArgs(enc) <==> d.video.hdrPreserved
  {
    OthersAreNotTenBit(d, enc);
    var color, format, preset := ColorArgs(d, enc), PixelFormat(d), PresetArgs(enc);
    var all := color + format + preset;
    assert all[|color| + 1] == format[1];
    assert !LooksTenBit("yuv420p") && !LooksTenBit("-pix_fmt") && LooksTenBit(TEN_BIT);
    forall i | 0 <= i < |all| && i != |color| + 1
      ensures !LooksTenBit(all[i])
    {
      if i < |color| {
        assert all[i] == color[i];
      } else if i < |color| + 2 {
        assert all[i] == format[i - |color|];
      } else {
        assert all[i] == preset[i - |color| - 2];
      }
    }
  }

  /** What the three builders leave in the arguments of a transcode. */
  lemma ReadyArgs(d: Decision, enc: Option<Encoder>, p: Policy)
    ensures BuildArgs(d, enc, p).Ready? && !d.kind.Remux? ==>
      var a := BuildArgs(d, enc, p).args;
      && (!d.kind.DirectPlay? && !BadStream(d))
      && a.videoArgs == WithVideo(EMPTY, d, enc, p).videoArgs
      && a.videoEncoder == WithVideo(EMPTY, d, enc, p).videoEncoder
      && a.videoFilters == WithSubtitle(WithVideo(EMPTY, d, enc, p), d).videoFilters
      && a.input == []
  {
  }

  /**
   For every decision and encoder: ten-bit output iff HDR is kept; one tone-map filter iff a source
   flagged as HDR is tone-mapped, and never more than one.
   */
  lemma VideoArgsFollowPlan(d: Decision, enc: Option<Encoder>, p: Policy)
    requires BuildArgs(d, enc, p).Ready? && !d.kind.Remux?
    ensures var a := BuildArgs(d, enc, p).args;
      && (TEN_BIT in a.videoArgs <==> d.video.needsTranscode && d.video.hdrPreserved)
      && ToneMaps(a.videoFilters) == (if d.video.needsTranscode && AppliesToneMap(d) then 1 else 0)
  {
    ReadyArgs(d, enc, p);
    TenBitArgs(d, enc, p);
    FiltersOnce(d, enc, p);
  }

  lemma TenBitArgs(d: Decision, enc: Option<Encoder>, p: Policy)
    ensures TEN_BIT in WithVideo(EMPTY, d, enc, p).videoArgs <==> d.video.needsTranscode && d.video.hdrPreserved
  {
    if d.video.needsTranscode {
      VideoIs(d, enc, p);
      TenBitIffHdr(d, enc);
    }
  }

  /** The filters and the video arguments of a transcode, in their order. */
  lemma VideoIs(d: Decision, enc: Option<Encoder>, p: Policy)
    ensures d.video.needsTranscode ==>
              WithVideo(EMPTY, d, enc, p).videoArgs == ColorArgs(d, enc) + PixelFormat(d) + PresetArgs(enc)
    ensures WithSubtitle(WithVideo(EMPTY, d, enc, p), d).videoFilters ==
            if d.video.needsTranscode then LegacyFilters(d.source) + MapFilter(d, p) + BurnFilter(d) else BurnFilter(d)
  {
    assert EMPTY.videoFilters + LegacyFilters(d.source) == LegacyFilters(d.source);
    assert EMPTY.videoArgs + ColorArgs(d, enc) == ColorArgs(d, enc);
    assert EMPTY.videoFilters + BurnFilter(d) == BurnFilter(d);
  }

  lemma ToneMapsOfThree(a: seq<Filter>, b: seq<Filter>, c: seq<Filter>)
    ensures ToneMaps(a + b + c) == ToneMaps(a) + ToneMaps(b) + ToneMaps(c)
  {
    ToneMapsOf(a, b);
    ToneMapsOf(a + b, c);
  }

  lemma FiltersOnce(d: Decision, enc: Option<Encoder>, p: Policy)
    ensures ToneMaps(WithSubtitle(WithVideo(EMPTY, d, enc, p), d).videoFilters) ==
            if d.video.needsTranscode && AppliesToneMap(d) then 1 else 0
  {
    VideoIs(d, enc, p);
    assert ToneMaps(LegacyFilters(d.source)) == 0 by {
      ToneMapsOf(if d.source.interlaced then [Deinterlace] else [],
                 if IsAnamorphic(d.source) then [SquarePixels] else []);
    }
    ToneMapsOfThree(LegacyFilters(d.source), MapFilter(d, p), BurnFilter(d));
  }

  /**
   From Decide to the command line: when a ladder codec is re-encoded from an HDR source, the output
   is ten-bit and unmapped, or mapped by exactly one filter; the first only through an encoder that
   passes HDR through.
   */
  lemma HdrReachesCommand(c: Context, item: Item, v: Device, enc: Option<Encoder>)
    requires MaySelect(c, ValidSubtitle(item), v, enc) && item.isHDR
    ensures var built := BuildArgs(Decide(c, item, v, enc), enc, c.policy);
      Reencodes(Decide(c, item, v, enc)) && built.Ready? ==>
        && ToneMaps(built.args.videoFilters) == (if TEN_BIT in built.args.videoArgs then 0 else 1)
        && (TEN_BIT in built.args.videoArgs ==> enc.Some? && enc.value.supportsHDR)
  {
    var d := Decide(c, item, v, enc);
    assert d.source == item;
    if Reencodes(d) && BuildArgs(d, enc, c.policy).Ready? {
      ReencodeIsSound(c, item, v, enc);
      VideoArgsFollowPlan(d, enc, c.policy);
    }
  }

  /** Decide's decisions are rejected here for one reason only: a burn-in of a subtitle that is not selected. */
  lemma RejectedIff(c: Context, item: Item, v: Device, enc: Option<Encoder>, used: Option<Encoder>)
    ensures BuildArgs(Decide(c, item, v, enc), used, c.policy).BadStreamIndex? <==>
            c.available && SubtitleFor(c, item, v).action.BurnIn? && item.subtitleIndex == -1
  {
    if c.available && SubtitleFor(c, item, v).action.BurnIn? {
      BurnInReencodes(c, item, v, enc);
    } else {
      assert Decide(c, item, v, enc).subtitle == if c.available then SubtitleFor(c, item, v) else UNDECIDED;
    }
  }

  predicate Within(part: string, whole: string) {
    exists i, j :: 0 <= i <= j <= |whole| && whole[i..j] == part
  }

  /** Every filter is spelled out in the value of -vf. */
  lemma {:induction false} JoinHolds(parts: seq<string>, separator: string, k: nat)
    requires k < |parts|
    ensures Within(parts[k], Join(parts, separator))
    decreases |parts|
  {
    var all, first := Join(parts, separator), parts[0];
    if k == 0 {
      assert all[0..|first|] == first;
    } else {
      JoinHolds(parts[1..], separator, k - 1);
      var rest := Join(parts[1..], separator);
      var i, j :| 0 <= i <= j <= |rest| && rest[i..j] == parts[k];
      var n := |first + separator|;
      assert all == (first + separator) + rest;
      assert all[n + i..n + j] == rest[i..j];
    }
  }

  /** The command has a video encoder and burns the subtitle stream in. */
  predicate BurnsIn(cmd: seq<string>, encoder: string, index: int) {
    && |cmd| > 6
    && cmd[2] == "-c:v" && cmd[3] == encoder
    && cmd[4] == "-vf" && Within(Text(Subtitles(index)), cmd[5])
  }

  lemma ArgsBurnIn(a: Args, index: int, inputPath: string, outputPath: string)
    requires a.input == [] && a.videoEncoder != "" && Subtitles(index) in a.videoFilters
    ensures BurnsIn(Command(a, inputPath, outputPath), a.videoEncoder, index)
  {
    var cmd, video := Command(a, inputPath, outputPath), VideoPart(a);
    assert cmd[2..6] == video[..4] == ["-c:v", a.videoEncoder, "-vf", Join(Texts(a.videoFilters), ",")];
    assert cmd[2] == cmd[2..6][0] && cmd[3] == cmd[2..6][1] && cmd[4] == cmd[2..6][2] && cmd[5] == cmd[2..6][3];
    var k :| 0 <= k < |a.videoFilters| && a.videoFilters[k] == Subtitles(index);
    JoinHolds(Texts(a.videoFilters), ",", k);
  }

  lemma DecisionBurnsIn(d: Decision, used: Option<Encoder>, p: Policy)
    requires (d.kind.Transcode? || d.kind.Fallback?) && d.video.needsTranscode
    requires d.subtitle.action.BurnIn? && (d.subtitle.kind.Graphical? || d.subtitle.kind.StyledText?)
    requires 0 <= d.subtitle.streamIndex
    ensures var built := BuildArgs(d, used, p);
      && built.Ready? && built.args.input == []
      && built.args.videoEncoder == (if used.Some? then used.value.name else "libx264")
      && Subtitles(d.subtitle.streamIndex) in built.args.videoFilters
  {
    var filters := WithSubtitle(WithVideo(EMPTY, d, used, p), d).videoFilters;
    assert filters[|filters| - 1] == Subtitles(d.subtitle.streamIndex);
    ReadyArgs(d, used, p);
  }

  /**
   A burn-in is never lost between the decision and the command: with the breaker not open and a
   subtitle stream selected, the command names a real encoder, and its -vf value spells out the
   subtitle filter for that stream.
   */
  lemma BurnInReachesCommand(c: Context, item: Item, v: Device, enc: Option<Encoder>, used: Option<Encoder>,
                             inputPath: string, outputPath: string)
    requires c.available && 0 <= item.subtitleIndex && (used.Some? ==> used.value.name != "")
    ensures var built := BuildArgs(Decide(c, item, v, enc), used, c.policy);
      SubtitleFor(c, item, v).action.BurnIn? ==>
        && built.Ready?
        && BurnsIn(Command(built.args, inputPath, outputPath),
                   if used.Some? then used.value.name else "libx264", item.subtitleIndex)
  {
    if SubtitleFor(c, item, v).action.BurnIn? {
      var d := Decide(c, item, v, enc);
      BurnInReencodes(c, item, v, enc);
      BurnInIff(c, item, v);
      DecisionBurnsIn(d, used, c.policy);
      ArgsBurnIn(BuildArgs(d, used, c.policy).args, item.subtitleIndex, inputPath, outputPath);
    }
  }
}
