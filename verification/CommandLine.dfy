/**
 The command line that a decision ends in, word for word, and whether the audio encoder that it names
 makes what the decision says.
 */
module CommandLine {
  import opened Options
  import opened Codec
  import opened Encoders
  import opened Playback
  import opened PlaybackTheorems
  import opened FFmpeg
  import PlaybackRules
  import HdrKept
  import Decimal

  // ---------- The whole command ----------

  predicate Contains(name: string, part: string) {
    exists i, j :: 0 <= i <= j <= |name| && name[i..j] == part
  }

  /** The filters of a re-encode, in their order: clean the picture up, map it, and draw on it. */
  function FiltersOf(d: Decision, p: Policy): seq<Filter> {
    (if d.source.interlaced then [Deinterlace] else []) +
    (if d.source.pixelAspectRatio > 0.0 && !(0.999 <= d.source.pixelAspectRatio <= 1.001) then [SquarePixels] else []) +
    (if d.source.isHDR && d.video.toneMapped && !d.video.hdrPreserved then [ToneMap(p.toneMapping)] else []) +
    (if d.subtitle.action.BurnIn? && (d.subtitle.kind.Graphical? || d.subtitle.kind.StyledText?)
     then [Subtitles(d.subtitle.streamIndex)] else [])
  }

  function ColorWords(primaries: string, transfer: string, matrix: string): seq<string> {
    ["-color_primaries", primaries, "-color_trc", transfer, "-colorspace", matrix]
  }

  /** The colours of an HDR source are named: those of HDR10 if it is kept, those of SDR if it is mapped. */
  function ColorsOf(d: Decision, enc: Option<Encoder>): seq<string> {
    if !d.source.isHDR then []
    else if d.video.hdrPreserved then ColorWords("bt2020", "smpte2084", "bt2020nc") + HardwareHdr(enc)
    else if d.video.toneMapped then ColorWords("bt709", "bt709", "bt709")
    else []
  }

  function HardwareHdr(enc: Option<Encoder>): seq<string> {
    if enc.None? || !enc.value.isHardware then []
    else if Contains(enc.value.name, "nvenc") then ["-rc", "constqp"]
    else if Contains(enc.value.name, "videotoolbox") && !Contains(enc.value.name, "vaapi") then ["-allow_sw", "1"]
    else []
  }

  function PresetOf(enc: Option<Encoder>): seq<string> {
    if enc.None? then ["-preset", "fast"]
    else if Contains(enc.value.name, "nvenc") then ["-preset", "p4", "-tune", "hq"]
    else if Contains(enc.value.name, "qsv") then ["-preset", "faster"]
    else if Contains(enc.value.name, "vaapi") then []
    else if Contains(enc.value.name, "videotoolbox") then ["-realtime", "1"]
    else if enc.value.name == "libx264" then ["-preset", "fast", "-crf", "23"]
    else if enc.value.name == "libx265" then ["-preset", "fast", "-crf", "28"]
    else if enc.value.name == "libsvtav1" then ["-preset", "8", "-crf", "30"]
    else []
  }

  function VideoWords(d: Decision, enc: Option<Encoder>, p: Policy): seq<string> {
    if !d.video.needsTranscode then ["-c:v", "copy"]
    else
      ["-c:v", if enc.Some? then enc.value.name else "libx264"] +
      (if FiltersOf(d, p) == [] then [] else ["-vf", Join(Texts(FiltersOf(d, p)), ",")]) +
      ColorsOf(d, enc) +
      ["-pix_fmt", if d.video.hdrPreserved then "p010le" else "yuv420p"] +
      PresetOf(enc)
  }

  /** The bit rate of an encoder, by the number of channels: stereo, surround, and eight channels. */
  function RateOf(stereo: string, surround: string, eight: string, channels: int): seq<string> {
    ["-b:a", if 8 <= channels then eight else if 6 <= channels then surround else stereo]
  }

  function EncoderWords(plan: AudioPlan): seq<string> {
    match plan.target
    case "eac3" => ["eac3"] + RateOf("384k", "640k", "1024k", plan.channels)
    case "ac3" => ["ac3", "-b:a", "640k"]
    case "opus" => ["libopus", "-b:a", "256k"]
    case "flac" => ["flac"]
    case "mp3" => ["libmp3lame", "-b:a", "320k"]
    case "aac" => ["aac"] + RateOf("256k", "384k", "512k", plan.channels)
    case _ => ["aac", "-b:a", "256k"]
  }

  function AudioWords(d: Decision): seq<string> {
    if !d.audio.needsTranscode then ["-c:a", "copy"]
    else
      ["-c:a"] + EncoderWords(d.audio) +
      if d.audio.channels > 0 then ["-ac", Decimal.Print(d.audio.channels)] else []
  }

  lemma ContainsTail(name: string, part: string)
    requires name != [] && Contains(name[1..], part)
    ensures Contains(name, part)
  {
    var i, j :| 0 <= i <= j <= |name[1..]| && name[1..][i..j] == part;
    assert name[i + 1..j + 1] == part;
  }

  lemma TailContains(name: string, part: string)
    requires name != [] && Contains(name, part) && !(part <= name)
    ensures Contains(name[1..], part)
  {
    var i, j :| 0 <= i <= j <= |name| && name[i..j] == part;
    assert name[..j] == name[0..j];
    assert name[1..][i - 1..j - 1] == part;
  }

  lemma {:induction false} MentionsIff(name: string, part: string)
    ensures Mentions(name, part) <==> Contains(name, part)
    decreases |name|
  {
    if part <= name {
      assert name[0..|part|] == part;
    } else if name != [] {
      MentionsIff(name[1..], part);
      if Contains(name[1..], part) {
        ContainsTail(name, part);
      }
      if Contains(name, part) {
        TailContains(name, part);
      }
    }
  }

  /** A remux copies both streams into another container. */
  lemma RemuxCommand(d: Decision, used: Option<Encoder>, p: Policy, inputPath: string, outputPath: string)
    requires d.kind.Remux?
    ensures BuildArgs(d, used, p).Ready?
    ensures Command(BuildArgs(d, used, p).args, inputPath, outputPath) ==
            ["-i", inputPath, "-c:v", "copy", "-c:a", "copy"] +
            (if d.container == "" then [] else ["-f", d.container]) + [outputPath]
  {
  }

  lemma PresetIs(enc: Option<Encoder>)
    ensures PresetArgs(enc) == PresetOf(enc)
  {
    if enc.Some? {
      MentionsIff(enc.value.name, "nvenc");
      MentionsIff(enc.value.name, "qsv");
      MentionsIff(enc.value.name, "vaapi");
      MentionsIff(enc.value.name, "videotoolbox");
    }
  }

  lemma HardwareHdrIs(enc: Option<Encoder>)
    ensures HdrArgs(enc) == ColorWords("bt2020", "smpte2084", "bt2020nc") + HardwareHdr(enc)
  {
    if enc.Some? {
      MentionsIff(enc.value.name, "nvenc");
      MentionsIff(enc.value.name, "vaapi");
      MentionsIff(enc.value.name, "videotoolbox");
    }
  }

  lemma ColorsAre(d: Decision, enc: Option<Encoder>)
    ensures ColorArgs(d, enc) == ColorsOf(d, enc)
  {
    HardwareHdrIs(enc);
  }

  lemma FiltersAre(d: Decision, p: Policy)
    ensures LegacyFilters(d.source) + MapFilter(d, p) + BurnFilter(d) == FiltersOf(d, p)
  {
  }

  lemma AudioIs(d: Decision)
    ensures AudioPart(WithAudio(EMPTY, d)) == AudioWords(d)
  {
    EncoderIs(d.audio);
  }

  lemma EncoderIs(plan: AudioPlan)
    ensures [AudioEncoderFor(plan).0] + AudioEncoderFor(plan).1 == EncoderWords(plan)
  {
  }

  lemma Regroup<T>(x: seq<T>, a: seq<T>, b: seq<T>, c: seq<T>)
    ensures x + (a + b + c) == x + a + b + c
  {
  }

  lemma VideoPartOf(a: Args, d: Decision, used: Option<Encoder>, p: Policy)
    requires d.video.needsTranscode && (used.Some? ==> used.value.name != "")
    requires a.videoEncoder == (if used.Some? then used.value.name else "libx264") && a.videoFilters == FiltersOf(d, p)
    requires a.videoArgs == ColorsOf(d, used) + PixelFormat(d) + PresetOf(used)
    ensures VideoPart(a) == VideoWords(d, used, p)
  {
    var start := ["-c:v", a.videoEncoder] +
      if FiltersOf(d, p) == [] then [] else ["-vf", Join(Texts(FiltersOf(d, p)), ",")];
    Regroup(start, ColorsOf(d, used), PixelFormat(d), PresetOf(used));
  }

  lemma VideoPartIs(d: Decision, used: Option<Encoder>, p: Policy)
    requires (d.kind.Transcode? || d.kind.Fallback?) && (used.Some? ==> used.value.name != "")
    requires d.subtitle.action.BurnIn? ==> 0 <= d.subtitle.streamIndex && d.video.needsTranscode
    ensures BuildArgs(d, used, p).Ready? && VideoPart(BuildArgs(d, used, p).args) == VideoWords(d, used, p)
  {
    var a := BuildArgs(d, used, p).args;
    ReadyArgs(d, used, p);
    if d.video.needsTranscode {
      assert a.videoArgs == ColorsOf(d, used) + PixelFormat(d) + PresetOf(used) by {
        VideoIs(d, used, p);
        PresetIs(used);
        ColorsAre(d, used);
      }
      assert a.videoFilters == FiltersOf(d, p) by {
        VideoIs(d, used, p);
        FiltersAre(d, p);
      }
      VideoPartOf(a, d, used, p);
    }
  }

  lemma RestIs(d: Decision, used: Option<Encoder>, p: Policy)
    requires (d.kind.Transcode? || d.kind.Fallback?) && !BadStream(d)
    ensures var a := BuildArgs(d, used, p).args;
      && a.input == [] && a.subtitleArgs == ["-sn"] && a.outputArgs == [] && a.outputFormat == FormatOf(d.container)
      && AudioPart(a) == AudioPart(WithAudio(EMPTY, d))
  {
  }

  lemma TailOf(a: Args, outputPath: string)
    requires a.subtitleArgs == ["-sn"] && a.outputArgs == [] && a.outputFormat != ""
    ensures Tail(a, outputPath) == AudioPart(a) + ["-sn", "-f", a.outputFormat, outputPath]
  {
  }

  /** A transcode is put together from what is to be done to each stream, and drops subtitle streams. */
  lemma TranscodeCommand(d: Decision, used: Option<Encoder>, p: Policy, inputPath: string, outputPath: string)
    requires (d.kind.Transcode? || d.kind.Fallback?) && (used.Some? ==> used.value.name != "")
    requires d.subtitle.action.BurnIn? ==> 0 <= d.subtitle.streamIndex && d.video.needsTranscode
    ensures BuildArgs(d, used, p).Ready?
    ensures Command(BuildArgs(d, used, p).args, inputPath, outputPath) ==
            ["-i", inputPath] + VideoWords(d, used, p) +
            (AudioWords(d) + ["-sn", "-f", FormatOf(d.container), outputPath])
  {
    var a := BuildArgs(d, used, p).args;
    VideoPartIs(d, used, p);
    AudioIs(d);
    RestIs(d, used, p);
    TailOf(a, outputPath);
    assert [] + ["-i", inputPath] == ["-i", inputPath];
  }

  // ---------- The audio encoder ----------

  /** The codec that an audio encoder of FFmpeg makes. */
  function MadeBy(encoder: string): string {
    if encoder == "libopus" then "opus" else if encoder == "libmp3lame" then "mp3" else encoder
  }

  const MADE := {"aac", "eac3", "ac3", "opus", "flac", "mp3"}

  lemma EncoderMakes(plan: AudioPlan)
    ensures MadeBy(AudioEncoderFor(plan).0) == if plan.target in MADE then plan.target else "aac"
  {
  }

  /** Dolby TrueHD, DTS or ALAC that the device lists, with more channels than the ladder knows. */
  predicate IsTooWide(item: Item, v: Device) {
    && (item.audioCodec == "truehd" || item.audioCodec == "dts" || item.audioCodec == "alac")
    && PlaybackRules.Lists(v.audioCodecs, item.audioCodec) && 8 < item.audioChannels
  }

  /**
   Audio is re-encoded to the codec that the decision names, but for one case: these three, when they
   have more than eight channels. There is no encoder for them, and the command makes AAC.
   */
  lemma EncoderMakesTargetIff(c: Context, item: Item, v: Device, enc: Option<Encoder>)
    requires c.available && Decide(c, item, v, enc).audio.needsTranscode
    ensures var audio := Decide(c, item, v, enc).audio;
      MadeBy(AudioEncoderFor(audio).0) == audio.target <==> !(PlaybackRules.HasBest(c, item, v) && IsTooWide(item, v))
  {
    PlaybackRules.AudioSent(c, item, v, enc);
    EncoderMakes(Decide(c, item, v, enc).audio);
    if PlaybackRules.HasBest(c, item, v) {
      LadderMakes(item, v, c.server.value);
    }
  }

  lemma LadderMakes(item: Item, v: Device, encoders: seq<Encoder>)
    requires !PlaybackRules.StaysAsIs(item, v)
    ensures PlaybackRules.LadderAudio(item, v, encoders).target in MADE <==> !IsTooWide(item, v)
  {
    if PlaybackRules.Lists(v.audioCodecs, item.audioCodec) {
      PlaybackRules.ListedSource(item, v, encoders);
    } else {
      PlaybackRules.UnlistedSource(item, v, encoders);
    }
  }
}
