/**
 The decision engine as an object. A decision is filled in field by field, by the same steps as in
 Playback, and the circuit breaker that gates it is a real one.
 */
module Orchestrator {
  import opened Options
  import opened Codec
  import opened Encoders
  import opened Playback
  import opened PlaybackTheorems
  import Breakers = CircuitBreaker

  class PlaybackDecision {
    const source: Item
    const trust: real
    var kind: Kind
    var targetVideo: string
    var targetAudio: string
    var targetContainer: string
    var targetChannels: int
    var needsVideo: bool
    var needsAudio: bool
    var needsRemux: bool
    var hdrPreserved: bool
    var toneMapped: bool
    var bitDepthPreserved: bool
    var channelsPreserved: bool
    var encoderUsed: string
    var hardwareUsed: bool
    var subtitle: Subtitle

    ghost function VideoView(): VideoPlan
      reads this
    {
      VideoPlan(needsVideo, targetVideo, hdrPreserved, toneMapped, bitDepthPreserved, encoderUsed, hardwareUsed)
    }

    ghost function AudioView(): AudioPlan
      reads this
    {
      AudioPlan(needsAudio, targetAudio, targetChannels, channelsPreserved)
    }

    ghost function View(): Decision
      reads this
    {
      Decision(kind, source, trust, VideoView(), AudioView(), targetContainer, needsRemux, subtitle)
    }

    constructor (item: Item, v: Device)
      ensures View() == Undecided(item, v)
    {
      source, trust := item, v.trust;
      kind, subtitle := DirectPlay, UNDECIDED;
      targetVideo, targetAudio, targetContainer, targetChannels := "", "", "", 0;
      needsVideo, needsAudio, needsRemux := false, false, false;
      hdrPreserved, toneMapped, bitDepthPreserved, channelsPreserved := false, false, false, false;
      encoderUsed, hardwareUsed := "", false;
    }
  }

  class Orchestrator {
    const policy: Policy
    const burnInStyled: bool
    var server: Option<seq<Encoder>>
    const transcodeBreaker: Breakers.Breaker

    constructor (policy: Policy, burnInStyled: bool, server: Option<seq<Encoder>>)
      ensures this.policy == policy && this.burnInStyled == burnInStyled && this.server == server
      ensures fresh(transcodeBreaker) && transcodeBreaker.config == Breakers.DEFAULT_CONFIG
      ensures transcodeBreaker.View() == Breakers.INITIAL
    {
      this.policy, this.burnInStyled, this.server := policy, burnInStyled, server;
      transcodeBreaker := new Breakers.Breaker(Breakers.DEFAULT_CONFIG);
    }

    predicate IsTranscodeAvailable()
      reads this, transcodeBreaker
    {
      !transcodeBreaker.state.Open?
    }

    ghost function Now(): Context
      reads this, transcodeBreaker
    {
      Context(policy, burnInStyled, server, IsTranscodeAvailable())
    }

    method RecordTranscodeResult(success: bool, now: int)
      modifies transcodeBreaker
      ensures transcodeBreaker.View() ==
              Breakers.Step(transcodeBreaker.config, old(transcodeBreaker.View()),
                            if success then Breakers.Succeed else Breakers.Fail(now))
    {
      if success {
        transcodeBreaker.RecordSuccess();
      } else {
        transcodeBreaker.RecordFailure(now);
      }
    }

    /** The item that Decide leaves to its caller: an invalid subtitle index is reset in place. */
    method Decide(item: Item, v: Device) returns (decision: PlaybackDecision, left: Item)
      ensures fresh(decision)
      ensures left == if IsTranscodeAvailable() then ValidSubtitle(item) else item
      ensures exists enc :: MaySelect(Now(), ValidSubtitle(item), v, enc) &&
                            decision.View() == Playback.Decide(Now(), item, v, enc)
    {
      decision := new PlaybackDecision(item, v);
      left := item;
      if !IsTranscodeAvailable() {
        var played := TryDirectPlay(item, v, decision);
        ghost var enc := SomeSelection(Now(), ValidSubtitle(item), v);
        return;
      }
      if left.subtitleIndex < -1 {
        left := left.(subtitleIndex := -1, subtitleFormat := "");
      }
      var deviceSupportsSub := ContainsCodec(v.subtitleFormats, left.subtitleFormat);
      decision.subtitle := DecideSubtitle(left.subtitleFormat, deviceSupportsSub, burnInStyled);
      decision.subtitle := decision.subtitle.(streamIndex := left.subtitleIndex);
      assert decision.View() == Undecided(item, v).(subtitle := SubtitleFor(Now(), item, v));

      if !decision.subtitle.forcesBurnIn {
        var played := TryDirectPlay(left, v, decision);
        if played {
          ghost var enc := SomeSelection(Now(), left, v);
          return;
        }
        var remuxed := TryRemux(left, v, decision);
        if remuxed {
          ghost var enc := SomeSelection(Now(), left, v);
          return;
        }
      }
      BuildTranscode(left, v, decision);
    }

    /** The assignments that tryDirectPlay and tryRemux end with. */
    method CopyStreams(item: Item, container: string, decision: PlaybackDecision)
      requires decision.VideoView() == NO_VIDEO && decision.AudioView() == NO_AUDIO
      modifies decision
      ensures decision.View() ==
              old(decision.View()).(video := CopiedVideo(item), audio := CopiedAudio(item), container := container)
    {
      decision.targetVideo := item.videoCodec;
      decision.targetAudio := item.audioCodec;
      decision.targetContainer := container;
      decision.targetChannels := item.audioChannels;
      decision.hdrPreserved := item.isHDR;
      decision.bitDepthPreserved := true;
      decision.channelsPreserved := true;
    }

    method TryDirectPlay(item: Item, v: Device, decision: PlaybackDecision) returns (ok: bool)
      requires decision.VideoView() == NO_VIDEO && decision.AudioView() == NO_AUDIO && !decision.needsRemux
      modifies decision
      ensures ok == CanDirectPlay(policy, item, v)
      ensures decision.View() ==
              if ok then Copied(old(decision.View()), item, DirectPlay, item.container) else old(decision.View())
    {
      if !CanDirectPlayVideo(policy, v, item) {
        return false;
      }
      if !CanDirectPlayAudio(v, item) {
        return false;
      }
      if !ContainsCodec(v.containers, item.container) {
        return false;
      }
      if item.isHDR {
        match policy.hdr {
          case AlwaysToneMap => return false;
          case BestForDevice => if !v.supportsHDR { return false; }
          case NeverToneMap =>
        }
      }
      decision.kind := DirectPlay;
      CopyStreams(item, item.container, decision);
      return true;
    }

    /** findCompatibleContainer */
    method FindCompatibleContainer(v: Device, video: string, audio: string) returns (r: Option<string>)
      ensures r == FirstHolding(v.containers, video, audio)
    {
      for i := 0 to |v.containers|
        invariant FirstHolding(v.containers, video, audio) == FirstHolding(v.containers[i..], video, audio)
      {
        if CanContainerContain(v.containers[i], video) && CanContainerContain(v.containers[i], audio) {
          return Some(v.containers[i]);
        }
      }
      return None;
    }

    method TryRemux(item: Item, v: Device, decision: PlaybackDecision) returns (ok: bool)
      requires decision.VideoView() == NO_VIDEO && decision.AudioView() == NO_AUDIO
      modifies decision
      ensures ok == RemuxContainer(policy, item, v).Some?
      ensures decision.View() ==
              if ok then Copied(old(decision.View()), item, Remux, RemuxContainer(policy, item, v).value)
              else old(decision.View())
    {
      if !CanDirectPlayVideo(policy, v, item) {
        return false;
      }
      if !CanDirectPlayAudio(v, item) {
        return false;
      }
      if item.isHDR && policy.hdr.AlwaysToneMap? {
        return false;
      }
      if item.isHDR && policy.hdr.BestForDevice? && !v.supportsHDR {
        return false;
      }
      var container := FindCompatibleContainer(v, item.videoCodec, item.audioCodec);
      if container == None {
        return false;
      }
      decision.kind := Remux;
      decision.needsRemux := true;
      CopyStreams(item, container.value, decision);
      return true;
    }

    /** selectVideoTarget: the search down the ladder, then H.264, then nothing. */
    method SelectVideoTarget(item: Item, v: Device, encoders: seq<Encoder>) returns (r: Option<string>)
      ensures r == VideoTarget(item, v, encoders)
    {
      var ladder := VideoLadder(item.videoCodec);
      for i := 0 to |ladder|
        invariant FirstRung(ladder, v, encoders) == FirstRung(ladder[i..], v, encoders)
      {
        if ContainsCodec(v.videoCodecs, ladder[i]) {
          if CanEncode(encoders, ladder[i]) {
            return Some(ladder[i]);
          }
        }
      }
      if CanEncode(encoders, "h264") {
        return Some("h264");
      }
      return None;
    }

    /** selectAudioTarget */
    method SelectAudioTarget(item: Item, v: Device, encoders: seq<Encoder>) returns (codec: string, channels: int)
      ensures AudioTarget(codec, channels) == AudioFor(item, v, encoders)
    {
      var ladder := AudioLadder(item.audioCodec);
      for i := 0 to |ladder|
        invariant FirstAudio(ladder, item, v, encoders) == FirstAudio(ladder[i..], item, v, encoders)
      {
        var candidate := ladder[i];
        if ContainsCodec(v.audioCodecs, candidate.codec) {
          if CanEncode(encoders, candidate.codec) || Equal(candidate.codec, item.audioCodec) {
            channels := candidate.maxChannels;
            if channels > item.audioChannels {
              channels := item.audioChannels;
            }
            return candidate.codec, channels;
          }
        }
      }
      return "aac", 2;
    }

    /** selectContainer; its second look at MP4 can never succeed where the first did not. */
    method SelectContainer(video: string, audio: string, v: Device) returns (r: string)
      ensures r == ContainerFor(video, audio, v)
    {
      var preferred := PREFERRED;
      for i := 0 to |preferred|
        invariant FirstPreferred(preferred, video, audio, v) == FirstPreferred(preferred[i..], video, audio, v)
      {
        if ContainsCodec(v.containers, preferred[i]) && CanContainerContain(preferred[i], video) &&
           CanContainerContain(preferred[i], audio) {
          return preferred[i];
        }
      }
      if ContainsCodec(v.containers, "mp4") && CanContainerContain("mp4", video) && CanContainerContain("mp4", audio) {
        return "mp4";
      }
      if CanContainerContain("ts", video) && CanContainerContain("ts", audio) {
        return "ts";
      }
      return "mp4";
    }

    method Fallback(decision: PlaybackDecision)
      modifies decision
      ensures decision.View() == AbsoluteFallback(old(decision.View()))
    {
      decision.kind := Kind.Fallback;
      decision.needsVideo := true;
      decision.needsAudio := true;
      decision.targetVideo := "h264";
      decision.targetAudio := "aac";
      decision.targetContainer := "mp4";
      decision.targetChannels := 2;
    }

    /** What buildTranscode settles about HDR before it looks at encoders. */
    method ResolveHdr(item: Item, v: Device) returns (needsHDR: bool, needsToneMap: bool)
      ensures needsHDR == NeedsHDR(policy, item, v) && needsToneMap == NeedsToneMap(policy, item, v)
    {
      needsHDR, needsToneMap := false, false;
      if item.isHDR {
        match policy.hdr {
          case BestForDevice =>
            if v.supportsHDR { needsHDR := true; } else { needsToneMap := true; }
          case AlwaysToneMap => needsToneMap := true;
          case NeverToneMap => needsHDR := true;
        }
      }
      if item.isDolbyVision && !v.supportsDolbyVision {
        if item.dolbyVisionProfile == "7" || item.dolbyVisionProfile == "8" {
          if !v.supportsHDR {
            needsToneMap := true;
            needsHDR := false;
          }
        }
      }
    }

    /** The re-encoding branch of buildTranscode, once the encoder is selected. */
    method ReencodeVideo(target: string, encoder: Option<Encoder>, hdr: bool, toneMap: bool, decision: PlaybackDecision)
      requires decision.VideoView() == NO_VIDEO
      modifies decision`needsVideo, decision`targetVideo, decision`encoderUsed, decision`hardwareUsed,
               decision`hdrPreserved, decision`toneMapped, decision`bitDepthPreserved
      ensures decision.needsVideo && decision.targetVideo == target
      ensures decision.encoderUsed == (if encoder.Some? then encoder.value.name else "")
      ensures decision.hardwareUsed == (encoder.Some? && encoder.value.isHardware)
      ensures decision.hdrPreserved == (hdr && (encoder.Some? ==> encoder.value.supportsHDR))
      ensures decision.toneMapped == (!decision.hdrPreserved && (hdr || toneMap))
      ensures decision.bitDepthPreserved == !decision.toneMapped
    {
      var needsHDR, needsToneMap := hdr, toneMap;
      decision.needsVideo := true;
      decision.targetVideo := target;
      if encoder.Some? {
        decision.encoderUsed := encoder.value.name;
        decision.hardwareUsed := encoder.value.isHardware;
        if needsHDR && !encoder.value.supportsHDR {
          needsHDR := false;
          needsToneMap := true;
        }
      }
      if needsHDR {
        decision.hdrPreserved := true;
        decision.bitDepthPreserved := true;
      } else if needsToneMap {
        decision.toneMapped := true;
        decision.hdrPreserved := false;
        decision.bitDepthPreserved := false;
      } else {
        decision.bitDepthPreserved := true;
      }
    }

    /** The video half of buildTranscode. */
    method BuildVideo(item: Item, v: Device, target: string, encoders: seq<Encoder>, decision: PlaybackDecision)
        returns (ghost enc: Option<Encoder>)
      requires decision.VideoView() == NO_VIDEO
      modifies decision`needsVideo, decision`targetVideo, decision`encoderUsed, decision`hardwareUsed,
               decision`hdrPreserved, decision`toneMapped, decision`bitDepthPreserved
      ensures IsSelected(encoders, target, NeedsHDR(policy, item, v), NeedsHDR(policy, item, v), enc)
      ensures decision.VideoView() == PlanVideo(policy, item, v, decision.subtitle.forcesBurnIn, target, enc)
    {
      var needsHDR, needsToneMap := ResolveHdr(item, v);
      if CanDirectPlayVideo(policy, v, item) && !needsToneMap && !decision.subtitle.forcesBurnIn {
        enc := BestEncoder(encoders, target, needsHDR, needsHDR);
        decision.needsVideo := false;
        decision.targetVideo := item.videoCodec;
        decision.hdrPreserved := item.isHDR;
        decision.bitDepthPreserved := true;
      } else {
        var encoder := SelectEncoder(encoders, target, needsHDR, needsHDR);
        enc := encoder;
        ReencodeVideo(target, encoder, needsHDR, needsToneMap, decision);
      }
    }

    /** The audio half of buildTranscode. */
    method BuildAudio(item: Item, v: Device, encoders: seq<Encoder>, decision: PlaybackDecision)
      modifies decision`needsAudio, decision`targetAudio, decision`targetChannels, decision`channelsPreserved
      ensures decision.AudioView() == PlanAudio(item, AudioFor(item, v, encoders))
    {
      var codec, channels := SelectAudioTarget(item, v, encoders);
      if Equal(codec, item.audioCodec) && channels >= item.audioChannels {
        decision.needsAudio := false;
        decision.targetAudio := item.audioCodec;
        decision.targetChannels := item.audioChannels;
        decision.channelsPreserved := true;
      } else {
        decision.needsAudio := true;
        decision.targetAudio := codec;
        decision.targetChannels := channels;
        decision.channelsPreserved := channels >= item.audioChannels;
      }
    }

    method BuildTranscode(item: Item, v: Device, decision: PlaybackDecision)
      requires decision.VideoView() == NO_VIDEO
      modifies decision
      ensures exists enc :: MaySelect(Now(), item, v, enc) &&
                            decision.View() == Playback.BuildTranscode(old(decision.View()), Now(), item, v, enc)
    {
      if server == None {
        Fallback(decision);
        assert MaySelect(Now(), item, v, None);
        return;
      }
      var target := SelectVideoTarget(item, v, server.value);
      if target == None {
        Fallback(decision);
        assert MaySelect(Now(), item, v, None);
        return;
      }
      ghost var enc := BuildFor(item, v, target.value, server.value, decision);
      assert MaySelect(Now(), item, v, enc);
    }

    /** buildTranscode, once the target codec is known. */
    method BuildFor(item: Item, v: Device, target: string, encoders: seq<Encoder>, decision: PlaybackDecision)
        returns (ghost enc: Option<Encoder>)
      requires decision.VideoView() == NO_VIDEO
      modifies decision
      ensures IsSelected(encoders, target, NeedsHDR(policy, item, v), NeedsHDR(policy, item, v), enc)
      ensures decision.View() == Assemble(old(decision.View()), v,
                                          PlanVideo(policy, item, v, old(decision.subtitle.forcesBurnIn), target, enc),
                                          PlanAudio(item, AudioFor(item, v, encoders)))
    {
      ghost var start := decision.View();
      enc := BuildVideo(item, v, target, encoders, decision);
      assert decision.View() == start.(video := decision.VideoView());
      BuildAudio(item, v, encoders, decision);
      assert decision.View() == start.(video := decision.VideoView(), audio := decision.AudioView());
      AssembleTranscode(v, decision);
    }

    /** The last lines of buildTranscode. */
    method AssembleTranscode(v: Device, decision: PlaybackDecision)
      modifies decision`targetContainer, decision`kind, decision`needsRemux
      ensures decision.View() == Assemble(old(decision.View()), v, decision.VideoView(), decision.AudioView())
    {
      decision.targetContainer := SelectContainer(decision.targetVideo, decision.targetAudio, v);
      if decision.needsVideo || decision.needsAudio {
        decision.kind := Transcode;
      } else {
        decision.kind := Remux;
        decision.needsRemux := true;
      }
    }
  }

  /**
   The engine reports results to its breaker and never calls Allow. So once a run of results has
   opened the breaker, no later results close it, and every later decision says direct play.
   */
  lemma OnceOpenAlwaysDegraded(b: Breakers.Config, results: seq<Breakers.Event>, later: seq<Breakers.Event>,
                               c: Context, item: Item, v: Device, enc: Option<Encoder>)
    requires Breakers.Run(b, results).state.Open?
    requires forall i :: 0 <= i < |later| ==> !later[i].Ask?
    requires c.available == !Breakers.Run(b, results + later).state.Open?
    ensures Playback.Decide(c, item, v, enc).kind.DirectPlay?
    ensures !CanDirectPlay(c.policy, item, v) ==> Playback.Decide(c, item, v, enc).video.target == ""
  {
    Breakers.OpenWithoutAllow(b, results, later);
  }
}
