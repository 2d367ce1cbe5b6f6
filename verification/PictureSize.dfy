/**
 The size of the picture that a device gets: a picture too large for the device is always re-encoded,
 and no command that is built changes its size.
 */
module PictureSize {
  import opened Options
  import opened Encoders
  import opened Playback
  import opened PlaybackTheorems
  import opened HdrKept
  import opened FFmpeg
  import opened Delivery
  import PlaybackRules

  // ---------- Too large ----------

  /** The picture is larger than the device's limits, of which one that is not positive is none. */
  predicate TooLarge(item: Item, v: Device) {
    (0 < v.maxWidth < item.width) || (0 < v.maxHeight < item.height)
  }

  /** A picture too large for the device is re-encoded. */
  lemma OversizeIsReencoded(c: Context, item: Item, v: Device, enc: Option<Encoder>)
    requires c.available && TooLarge(item, v)
    ensures Decide(c, item, v, enc).video.needsTranscode
  {
    PlaybackRules.VideoKeptIff(c, item, v, enc);
  }

  // ---------- Filters ----------

  /** The filters of FFmpeg that change the size by themselves. */
  const RESIZERS := {"scale", "scale2ref", "scale_cuda", "scale_qsv", "scale_vaapi", "scale_vt", "crop", "pad"}

  /** The options by which other filters change it. */
  const SIZE_KEYS := {"w", "h", "s", "size", "width", "height"}

  predicate Resizes(s: Step) {
    s.name in RESIZERS || exists i :: 0 <= i < |s.options| && s.options[i].key in SIZE_KEYS
  }

  predicate NoneResizes(steps: seq<Step>) {
    forall i :: 0 <= i < |steps| ==> !Resizes(steps[i])
  }

  lemma ConversionsKeepSize()
    ensures NoneResizes(TO_LINEAR) && NoneResizes(TO_BT709)
  {
  }

  lemma StepsKeepSize(f: Filter)
    ensures Steps(f) != [] && NoneResizes(Steps(f))
  {
    match f {
      case Deinterlace =>
      case SquarePixels =>
      case ToneMap(High) =>
      case ToneMap(Medium) => MappingKeepsSize("hable");
      case ToneMap(Fast) => MappingKeepsSize("reinhard");
      case Subtitles(_) =>
    }
  }

  lemma MappingKeepsSize(curve: string)
    ensures NoneResizes(TO_LINEAR + [Tonemap(curve)] + TO_BT709)
  {
    ConversionsKeepSize();
    assert !Resizes(Tonemap(curve));
  }

  /** The steps of all filters, in order. */
  function AllSteps(filters: seq<Filter>): seq<Step> {
    if filters == [] then [] else Steps(filters[0]) + AllSteps(filters[1..])
  }

  lemma {:induction false} AllStepsKeepSize(filters: seq<Filter>)
    ensures filters != [] ==> AllSteps(filters) != []
    ensures NoneResizes(AllSteps(filters))
    decreases |filters|
  {
    if filters != [] {
      StepsKeepSize(filters[0]);
      AllStepsKeepSize(filters[1..]);
    }
  }

  lemma {:induction false} JoinConcat(a: seq<string>, b: seq<string>, separator: string)
    requires a != [] && b != []
    ensures Join(a + b, separator) == Join(a, separator) + separator + Join(b, separator)
    decreases |a|
  {
    assert (a + b)[1..] == a[1..] + b;
    if |a| > 1 {
      JoinConcat(a[1..], b, separator);
    } else {
      assert a[1..] + b == b;
    }
  }

  /** The value of -vf is the steps of all filters, spelled out and joined. */
  lemma {:induction false} FilterTextIs(filters: seq<Filter>)
    ensures Join(Texts(filters), ",") == Join(StepTexts(AllSteps(filters)), ",")
    decreases |filters|
  {
    if filters != [] {
      var first, rest := filters[0], filters[1..];
      FilterTextIs(rest);
      assert Texts(filters)[1..] == Texts(rest);
      if rest == [] {
        assert AllSteps(filters) == Steps(first);
      } else {
        StepsKeepSize(first);
        AllStepsKeepSize(rest);
        StepTextsConcat(Steps(first), AllSteps(rest));
      }
    }
  }

  lemma StepTextsConcat(a: seq<Step>, b: seq<Step>)
    requires a != [] && b != []
    ensures Join(StepTexts(a + b), ",") == Join(StepTexts(a), ",") + "," + Join(StepTexts(b), ",")
  {
    assert StepTexts(a + b) == StepTexts(a) + StepTexts(b) by { StepTextsBoth(a, b); }
    JoinConcat(StepTexts(a), StepTexts(b), ",");
  }

  lemma StepTextsBoth(a: seq<Step>, b: seq<Step>)
    ensures StepTexts(a + b) == StepTexts(a) + StepTexts(b)
  {
    var both, apart := StepTexts(a + b), StepTexts(a) + StepTexts(b);
    assert |both| == |apart|;
    assert forall i :: 0 <= i < |both| ==> both[i] == apart[i];
  }

  // ---------- Arguments ----------

  /** -s, which sets the size of the output. */
  predicate SizeFlag(s: string) {
    |s| == 2 && s[0] == '-' && s[1] == 's'
  }

  predicate NoSizeFlag(args: seq<string>) {
    forall i :: 0 <= i < |args| ==> !SizeFlag(args[i])
  }

  lemma {:induction false} JoinIsLong(parts: seq<string>, separator: string)
    requires parts != []
    ensures |Join(parts, separator)| >= |parts[0]|
  {
  }

  lemma FilterTextIsLong(filters: seq<Filter>)
    requires filters != []
    ensures |Join(Texts(filters), ",")| > 2
  {
    var first := Steps(filters[0])[0];
    assert |first.name| > 2;
    JoinIsLong(StepTexts(Steps(filters[0])), ",");
    JoinIsLong(Texts(filters), ",");
  }

  lemma VideoArgsNoSizeFlag(d: Decision, enc: Option<Encoder>)
    ensures NoSizeFlag(ColorArgs(d, enc)) && NoSizeFlag(PixelFormat(d)) && NoSizeFlag(PresetArgs(enc))
  {
  }

  lemma AudioArgsNoSizeFlag(d: Decision)
    ensures NoSizeFlag(AudioPart(WithAudio(EMPTY, d)))
  {
    var (encoder, bitrate) := AudioEncoderFor(d.audio);
    assert !SizeFlag(encoder) && NoSizeFlag(bitrate);
  }

  lemma VideoPartNoSizeFlag(d: Decision, used: Option<Encoder>, p: Policy)
    requires used.Some? ==> !SizeFlag(used.value.name)
    ensures NoSizeFlag(VideoPart(WithSubtitle(WithVideo(EMPTY, d, used, p), d)))
  {
    var a := WithSubtitle(WithVideo(EMPTY, d, used, p), d);
    assert !SizeFlag(a.videoEncoder);
    assert NoSizeFlag(a.videoArgs) by {
      if d.video.needsTranscode {
        VideoIs(d, used, p);
        VideoArgsNoSizeFlag(d, used);
        NoSizeFlagBoth(ColorArgs(d, used), PixelFormat(d));
        NoSizeFlagBoth(ColorArgs(d, used) + PixelFormat(d), PresetArgs(used));
      }
    }
    VideoPartOf(a);
  }

  lemma VideoPartOf(a: Args)
    requires !SizeFlag(a.videoEncoder) && NoSizeFlag(a.videoArgs)
    ensures NoSizeFlag(VideoPart(a))
  {
    NoSizeFlagPair("-c:v", "copy");
    NoSizeFlagPair("-c:v", a.videoEncoder);
    var filters := [];
    if a.videoFilters != [] {
      FilterTextIsLong(a.videoFilters);
      NoSizeFlagPair("-vf", Join(Texts(a.videoFilters), ","));
      filters := ["-vf", Join(Texts(a.videoFilters), ",")];
    }
    NoSizeFlagBoth(["-c:v", a.videoEncoder], filters);
    NoSizeFlagBoth(["-c:v", a.videoEncoder] + filters, a.videoArgs);
  }

  lemma NoSizeFlagPair(a: string, b: string)
    requires |a| > 2 && !SizeFlag(b)
    ensures NoSizeFlag([a, b])
  {
  }

  /** The arguments of a decision, piece by piece. */
  lemma PiecesNoSizeFlag(d: Decision, used: Option<Encoder>, p: Policy)
    requires BuildArgs(d, used, p).Ready? && !SizeFlag(d.container)
    requires used.Some? ==> !SizeFlag(used.value.name)
    ensures var a := BuildArgs(d, used, p).args;
      && a.input == [] && a.outputArgs == [] && !SizeFlag(a.outputFormat)
      && NoSizeFlag(VideoPart(a)) && NoSizeFlag(AudioPart(a)) && NoSizeFlag(a.subtitleArgs)
  {
    var a := BuildArgs(d, used, p).args;
    if !d.kind.Remux? {
      VideoPartNoSizeFlag(d, used, p);
      AudioArgsNoSizeFlag(d);
      SamePieces(d, used, p);
    }
  }

  /** The three builders do not disturb each other. */
  lemma SamePieces(d: Decision, used: Option<Encoder>, p: Policy)
    requires BuildArgs(d, used, p).Ready? && !d.kind.Remux?
    ensures var a := BuildArgs(d, used, p).args;
      && VideoPart(a) == VideoPart(WithSubtitle(WithVideo(EMPTY, d, used, p), d))
      && AudioPart(a) == AudioPart(WithAudio(EMPTY, d))
      && a.subtitleArgs == ["-sn"] && a.input == [] && a.outputArgs == [] && a.outputFormat == FormatOf(d.container)
  {
    ReadyArgs(d, used, p);
  }

  /** A command of such pieces has no size flag either, the two paths apart. */
  lemma CommandNoSizeFlag(a: Args, inputPath: string, outputPath: string)
    requires a.input == [] && a.outputArgs == [] && !SizeFlag(a.outputFormat)
    requires NoSizeFlag(VideoPart(a)) && NoSizeFlag(AudioPart(a)) && NoSizeFlag(a.subtitleArgs)
    ensures var cmd := Command(a, inputPath, outputPath);
      forall k :: 0 <= k < |cmd| - 1 && k != 1 ==> !SizeFlag(cmd[k])
  {
    var format := if a.outputFormat == "" then [] else ["-f", a.outputFormat];
    var middle := VideoPart(a) + (AudioPart(a) + a.subtitleArgs + format);
    assert NoSizeFlag(format);
    NoSizeFlagBoth(AudioPart(a), a.subtitleArgs);
    NoSizeFlagBoth(AudioPart(a) + a.subtitleArgs, format);
    NoSizeFlagBoth(VideoPart(a), AudioPart(a) + a.subtitleArgs + format);
    CommandIs(a, inputPath, outputPath, format);
    BetweenPaths(middle, inputPath, outputPath);
  }

  lemma NoSizeFlagBoth(a: seq<string>, b: seq<string>)
    requires NoSizeFlag(a) && NoSizeFlag(b)
    ensures NoSizeFlag(a + b)
  {
  }

  lemma CommandIs(a: Args, inputPath: string, outputPath: string, format: seq<string>)
    requires a.input == [] && a.outputArgs == []
    requires format == if a.outputFormat == "" then [] else ["-f", a.outputFormat]
    ensures Command(a, inputPath, outputPath) ==
            ["-i", inputPath] + (VideoPart(a) + (AudioPart(a) + a.subtitleArgs + format)) + [outputPath]
  {
    var tail := AudioPart(a) + a.subtitleArgs + format;
    assert Tail(a, outputPath) == tail + [outputPath];
    assert Command(a, inputPath, outputPath) == ["-i", inputPath] + VideoPart(a) + (tail + [outputPath]);
  }

  lemma BetweenPaths(middle: seq<string>, inputPath: string, outputPath: string)
    requires NoSizeFlag(middle)
    ensures var cmd := ["-i", inputPath] + middle + [outputPath];
      forall k :: 0 <= k < |cmd| - 1 && k != 1 ==> !SizeFlag(cmd[k])
  {
  }

  /** The container of a decision is not a size flag, for a remux because it is one of the table. */
  lemma ContainerNoSizeFlag(c: Context, item: Item, v: Device, enc: Option<Encoder>, used: Option<Encoder>)
    ensures var d := Decide(c, item, v, enc);
      BuildArgs(d, used, c.policy).Ready? ==> !SizeFlag(d.container)
  {
    var d := Decide(c, item, v, enc);
    RemuxFormatIff(c, item, v, enc, used);
    if d.kind.Transcode? || d.kind.Fallback? {
      DecideTranscodes(c, item, v, enc);
      TranscodeContainer(Prepared(c, item, v), c, ValidSubtitle(item), v, enc);
    }
  }

  /**
   Nothing that is built changes the size of the picture: no filter spelled out in the value of -vf
   resizes, and no argument but a path can be -s. So a re-encode for size is in vain.
   */
  lemma PictureKeepsItsSize(c: Context, item: Item, v: Device, enc: Option<Encoder>, used: Option<Encoder>,
                            inputPath: string, outputPath: string)
    requires used.Some? ==> !SizeFlag(used.value.name)
    ensures var built := BuildArgs(Decide(c, item, v, enc), used, c.policy);
      built.Ready? ==>
        var a, cmd := built.args, Command(built.args, inputPath, outputPath);
        && Join(Texts(a.videoFilters), ",") == Join(StepTexts(AllSteps(a.videoFilters)), ",")
        && NoneResizes(AllSteps(a.videoFilters))
        && (forall k :: 0 <= k < |cmd| - 1 && k != 1 ==> !SizeFlag(cmd[k]))
  {
    var d := Decide(c, item, v, enc);
    var built := BuildArgs(d, used, c.policy);
    if built.Ready? {
      FilterTextIs(built.args.videoFilters);
      AllStepsKeepSize(built.args.videoFilters);
      ContainerNoSizeFlag(c, item, v, enc, used);
      PiecesNoSizeFlag(d, used, c.policy);
      CommandNoSizeFlag(built.args, inputPath, outputPath);
    }
  }
}
