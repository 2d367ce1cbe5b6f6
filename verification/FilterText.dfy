/**
 The text of the filters: word for word, and how FFmpeg takes it apart again.
 */
module FilterText {
  import opened Options
  import opened Playback
  import opened FFmpeg
  import PictureSize
  import Decimal
  import Strings

  // ---------- Words ----------

  const LINEAR_WORDS := [["zscale", "t=linear", "npl=100"], ["format", "gbrpf32le"], ["zscale", "p=bt709"]]

  const SDR_WORDS := [["zscale", "t=bt709", "m=bt709", "r=tv"], ["format", "yuv420p"]]

  /** The steps of a filter: of each its name and its options. */
  function WordsOf(f: Filter): seq<seq<string>> {
    match f
    case Deinterlace => [["bwdif", "mode=send_frame", "parity=auto", "deint=all"]]
    case SquarePixels => [["setsar", "1"]]
    case ToneMap(High) =>
      [["libplacebo", "tonemapping=bt.2390", "colorspace=bt709", "color_primaries=bt709", "color_trc=bt709",
        "format=yuv420p"]]
    case ToneMap(Medium) => LINEAR_WORDS + [["tonemap", "hable", "desat=0"]] + SDR_WORDS
    case ToneMap(Fast) => LINEAR_WORDS + [["tonemap", "reinhard", "desat=0"]] + SDR_WORDS
    case Subtitles(index) => [["subtitles", "si=" + Decimal.Print(index)]]
  }

  predicate Spells(s: Step, words: seq<string>) {
    && |words| == |s.options| + 1 && s.name == words[0]
    && forall i :: 0 <= i < |s.options| ==> OptionText(s.options[i]) == words[i + 1]
  }

  predicate SpellsAll(steps: seq<Step>, words: seq<seq<string>>) {
    |steps| == |words| && forall i :: 0 <= i < |steps| ==> Spells(steps[i], words[i])
  }

  lemma SpellsBoth(a: seq<Step>, b: seq<Step>, x: seq<seq<string>>, y: seq<seq<string>>)
    requires SpellsAll(a, x) && SpellsAll(b, y)
    ensures SpellsAll(a + b, x + y)
  {
  }

  lemma ColorOptions()
    ensures OptionText(FilterOption("colorspace", "bt709")) == "colorspace=bt709"
    ensures OptionText(FilterOption("color_trc", "bt709")) == "color_trc=bt709"
  {
  }

  lemma MoreColorOptions()
    ensures OptionText(FilterOption("color_primaries", "bt709")) == "color_primaries=bt709"
    ensures OptionText(FilterOption("format", "yuv420p")) == "format=yuv420p"
  {
  }

  lemma CurveOption()
    ensures OptionText(FilterOption("tonemapping", "bt.2390")) == "tonemapping=bt.2390"
  {
  }

  lemma LinearOptions()
    ensures OptionText(FilterOption("t", "linear")) == "t=linear" && OptionText(FilterOption("npl", "100")) == "npl=100"
    ensures OptionText(FilterOption("p", "bt709")) == "p=bt709" && OptionText(FilterOption("r", "tv")) == "r=tv"
  {
  }

  lemma SdrOptions()
    ensures OptionText(FilterOption("t", "bt709")) == "t=bt709" && OptionText(FilterOption("m", "bt709")) == "m=bt709"
  {
  }

  lemma ToLinearSpelled()
    ensures SpellsAll(TO_LINEAR, LINEAR_WORDS)
  {
    LinearOptions();
  }

  lemma ToSdrSpelled()
    ensures SpellsAll(TO_BT709, SDR_WORDS)
  {
    LinearOptions();
    SdrOptions();
  }

  lemma CurveSpelled(curve: string)
    ensures SpellsAll(TO_LINEAR + [Tonemap(curve)] + TO_BT709,
                      LINEAR_WORDS + [["tonemap", curve, "desat=0"]] + SDR_WORDS)
  {
    ToLinearSpelled();
    ToSdrSpelled();
    assert SpellsAll([Tonemap(curve)], [["tonemap", curve, "desat=0"]]);
    SpellsBoth(TO_LINEAR, [Tonemap(curve)], LINEAR_WORDS, [["tonemap", curve, "desat=0"]]);
    SpellsBoth(TO_LINEAR + [Tonemap(curve)], TO_BT709, LINEAR_WORDS + [["tonemap", curve, "desat=0"]], SDR_WORDS);
  }

  lemma PlaceboSpelled()
    ensures SpellsAll(Steps(ToneMap(High)), WordsOf(ToneMap(High)))
  {
    CurveOption();
    ColorOptions();
    MoreColorOptions();
  }

  lemma DeinterlaceOptions()
    ensures OptionText(FilterOption("mode", "send_frame")) == "mode=send_frame"
    ensures OptionText(FilterOption("parity", "auto")) == "parity=auto"
    ensures OptionText(FilterOption("deint", "all")) == "deint=all"
  {
  }

  lemma DeinterlaceSpelled()
    ensures SpellsAll(Steps(Deinterlace), WordsOf(Deinterlace))
  {
    DeinterlaceOptions();
  }

  lemma FilterWords(f: Filter)
    ensures SpellsAll(Steps(f), WordsOf(f))
  {
    match f {
      case Deinterlace => DeinterlaceSpelled();
      case ToneMap(High) => PlaceboSpelled();
      case ToneMap(Medium) => CurveSpelled("hable");
      case ToneMap(Fast) => CurveSpelled("reinhard");
      case _ =>
    }
  }

  // ---------- Taken apart ----------

  lemma {:induction false} SplitJoin(parts: seq<string>, c: char)
    requires parts != [] && forall i :: 0 <= i < |parts| ==> c !in parts[i]
    ensures Strings.Split(Join(parts, [c]), c) == parts
    decreases |parts|
  {
    if |parts| > 1 {
      var rest := Join(parts[1..], [c]);
      Strings.IndexOfFirst(parts[0], c, rest);
      SplitJoin(parts[1..], c);
    }
  }

  /** The word holds none of the characters at which filters are taken apart. */
  predicate Clean(word: string) {
    ',' !in word && ':' !in word
  }

  predicate CleanWords(words: seq<string>) {
    |words| > 1 && forall k :: 0 <= k < |words| ==> Clean(words[k])
  }

  predicate AllClean(words: seq<seq<string>>) {
    forall i :: 0 <= i < |words| ==> CleanWords(words[i])
  }

  lemma {:induction false} DigitsClean(n: nat)
    ensures Clean(Decimal.PrintNat(n))
    decreases n
  {
    if n >= 10 {
      DigitsClean(n / 10);
    }
  }

  lemma CleanBoth(a: seq<seq<string>>, b: seq<seq<string>>)
    requires AllClean(a) && AllClean(b)
    ensures AllClean(a + b)
  {
  }

  lemma LinearClean()
    ensures AllClean(LINEAR_WORDS)
  {
  }

  lemma SdrClean()
    ensures AllClean(SDR_WORDS)
  {
  }

  lemma CurveClean(curve: string)
    requires Clean(curve)
    ensures AllClean(LINEAR_WORDS + [["tonemap", curve, "desat=0"]] + SDR_WORDS)
  {
    assert CleanWords(["tonemap", curve, "desat=0"]);
    LinearClean();
    SdrClean();
    CleanBoth(LINEAR_WORDS, [["tonemap", curve, "desat=0"]]);
    CleanBoth(LINEAR_WORDS + [["tonemap", curve, "desat=0"]], SDR_WORDS);
  }

  lemma WordsClean(f: Filter)
    ensures AllClean(WordsOf(f))
  {
    match f {
      case Deinterlace => DeinterlaceClean();
      case SquarePixels => SquareClean();
      case ToneMap(High) => PlaceboClean();
      case ToneMap(Medium) => CurveClean("hable");
      case ToneMap(Fast) => CurveClean("reinhard");
      case Subtitles(index) => SubtitlesClean(index);
    }
  }

  lemma DeinterlaceClean()
    ensures AllClean(WordsOf(Deinterlace))
  {
  }

  lemma SquareClean()
    ensures AllClean(WordsOf(SquarePixels))
  {
  }

  lemma PlaceboClean()
    ensures AllClean(WordsOf(ToneMap(High)))
  {
  }

  lemma SubtitlesClean(index: int)
    ensures AllClean(WordsOf(Subtitles(index)))
  {
    DigitsClean(if index < 0 then -index else index);
  }

  function OptionTexts(s: Step): seq<string> {
    seq(|s.options|, i requires 0 <= i < |s.options| => OptionText(s.options[i]))
  }

  lemma {:induction false} JoinLacks(parts: seq<string>, separator: string, c: char)
    requires c !in separator && forall i :: 0 <= i < |parts| ==> c !in parts[i]
    ensures c !in Join(parts, separator)
    decreases |parts|
  {
    if |parts| > 1 {
      JoinLacks(parts[1..], separator, c);
    }
  }

  /** A step of clean words has no comma, and its options are found between the colons after its name. */
  lemma StepSplits(s: Step, words: seq<string>)
    requires Spells(s, words) && CleanWords(words)
    ensures ',' !in StepText(s)
    ensures s.name + "=" <= StepText(s) && Strings.Split(StepText(s)[|s.name| + 1..], ':') == words[1..]
  {
    var options := OptionTexts(s);
    assert options == words[1..];
    JoinLacks(options, ":", ',');
    SplitJoin(options, ':');
    assert StepText(s) == s.name + "=" + Join(options, ":");
    assert StepText(s)[|s.name| + 1..] == Join(options, ":");
  }

  lemma {:induction false} NoCommas(filters: seq<Filter>)
    ensures forall i :: 0 <= i < |PictureSize.AllSteps(filters)| ==> ',' !in StepText(PictureSize.AllSteps(filters)[i])
    decreases |filters|
  {
    if filters != [] {
      var f := filters[0];
      NoCommas(filters[1..]);
      FilterWords(f);
      WordsClean(f);
      forall i | 0 <= i < |Steps(f)|
        ensures ',' !in StepText(Steps(f)[i])
      {
        StepSplits(Steps(f)[i], WordsOf(f)[i]);
      }
    }
  }

  /**
   The value of -vf, taken apart at its commas as FFmpeg does, is the steps of all filters in order.
   Each of these is, by FilterWords and StepSplits, its name and its options.
   */
  lemma FiltersSplit(filters: seq<Filter>)
    requires filters != []
    ensures Strings.Split(Join(Texts(filters), ","), ',') == StepTexts(PictureSize.AllSteps(filters))
  {
    PictureSize.FilterTextIs(filters);
    PictureSize.AllStepsKeepSize(filters);
    NoCommas(filters);
    SplitJoin(StepTexts(PictureSize.AllSteps(filters)), ',');
  }
}
