/**
 Playback feedback: per device the stored events, counters that are kept up to date one feedback at
 a time, and a clamped trust adjustment that decays. Floating-point numbers are reals here.
 */
module Feedback {

  datatype Outcome =
    | Unknown | Success | NetworkError | CodecError | DecodingFailed | RendererCrash | UnsupportedFormat
    | Timeout | Buffering

  datatype Report = Report(device: string, outcome: Outcome, videoCodec: string, audioCodec: string)

  datatype Event = Event(report: Report, trustDelta: real, at: int)

  datatype CodecStats = CodecStats(attempts: int, successes: int, failures: int)

  datatype Stats = Stats(
    total: int, successful: int, failed: int, inARow: int, failedInARow: int,
    outcomes: map<Outcome, int>, codecs: map<string, CodecStats>, firstSeen: int,
    trust: real, needsReProbe: bool)

  datatype Config = Config(
    successBonus: real, networkPenalty: real, codecPenalty: real, decodingPenalty: real, crashPenalty: real,
    maxTrust: real, minTrust: real, failureWindow: int, streakBonus: real, streakThreshold: int)

  const DEFAULT_CONFIG := Config(0.01, 0.05, 0.15, 0.25, 0.30, 1.0, 0.0, 3, 0.05, 10)

  /** calculateTrustDeltaFromConfig */
  function TrustDelta(c: Config, o: Outcome): real {
    match o
    case Success => c.successBonus
    case NetworkError => -c.networkPenalty
    case CodecError => -c.codecPenalty
    case DecodingFailed => -c.decodingPenalty
    case RendererCrash => -c.crashPenalty
    case UnsupportedFormat => -c.codecPenalty
    case Timeout => -c.networkPenalty
    case Buffering => -c.networkPenalty * 0.5
    case Unknown => 0.0
  }

  function Clamp(c: Config, x: real): real {
    var capped := if x > c.maxTrust then c.maxTrust else x;
    if capped < c.minTrust then c.minTrust else capped
  }

  function Get<K, V>(m: map<K, V>, k: K, default: V): V {
    if k in m then m[k] else default
  }

  const NO_CODEC := CodecStats(0, 0, 0)

  function CountCodec(codecs: map<string, CodecStats>, key: string, ok: bool): map<string, CodecStats> {
    var was := Get(codecs, key, NO_CODEC);
    codecs[key := if ok then CodecStats(was.attempts + 1, was.successes + 1, was.failures)
                  else CodecStats(was.attempts + 1, was.successes, was.failures + 1)]
  }

  /** The report names a codec; only such reports count as successes or failures. */
  predicate Bears(r: Report) {
    r.videoCodec != "" || r.audioCodec != ""
  }

  /** updateStats, before the trust adjustment. */
  function Counted(s: Stats, r: Report): Stats {
    var ok := r.outcome.Success?;
    var video := if r.videoCodec != "" then CountCodec(s.codecs, "video:" + r.videoCodec, ok) else s.codecs;
    var both := if r.audioCodec != "" then CountCodec(video, "audio:" + r.audioCodec, ok) else video;
    var outcomes := s.outcomes[r.outcome := Get(s.outcomes, r.outcome, 0) + 1];
    var t := s.(total := s.total + 1, outcomes := outcomes, codecs := both);
    if !Bears(r) then t
    else if ok then t.(successful := s.successful + 1, inARow := s.inARow + 1, failedInARow := 0)
    else t.(failed := s.failed + 1, failedInARow := s.failedInARow + 1, inARow := 0)
  }

  /** The trust adjustment of updateStats: add and clamp, and once more on a streak. */
  function Adjusted(c: Config, trust: real, delta: real, inARow: int): real {
    var once := Clamp(c, trust + delta);
    if inARow >= c.streakThreshold then Clamp(c, once + c.streakBonus) else once
  }

  function Updated(c: Config, s: Stats, r: Report): Stats {
    var t := Counted(s, r);
    t.(trust := Adjusted(c, s.trust, TrustDelta(c, r.outcome), t.inARow))
  }

  predicate ShouldReProbe(c: Config, s: Stats) {
    s.failedInARow >= c.failureWindow || (s.total >= 10 && s.failed as real / s.total as real > 0.5)
  }

  /** recordFeedback, on the statistics. */
  function Recorded(c: Config, s: Stats, r: Report): Stats {
    var t := Updated(c, s, r);
    t.(needsReProbe := t.needsReProbe || ShouldReProbe(c, t))
  }

  function NewStats(now: int): Stats {
    Stats(0, 0, 0, 0, 0, map[], map[], now, 0.0, false)
  }

  /** ResetTrustAdjustment */
  function Reset(s: Stats): Stats {
    s.(trust := 0.0, inARow := 0, failedInARow := 0, needsReProbe := false)
  }

  /** One round of runDecay: a tenth less, and nothing below a hundredth. */
  function Decayed(x: real): real {
    var y := x * 0.9;
    if x > 0.0 then (if y < 0.01 then 0.0 else y)
    else if x < 0.0 then (if y > -0.01 then 0.0 else y)
    else 0.0
  }

  function LastOf<T>(s: seq<T>, n: nat): seq<T> {
    if |s| > n then s[|s| - n..] else s
  }

  /** What recordFeedback stores: the new event, and of those before as many as there is room for. */
  function WithEvent(c: Config, maxEvents: nat, events: seq<Event>, r: Report, now: int): seq<Event> {
    LastOf(events + [Event(r, TrustDelta(c, r.outcome), now)], maxEvents)
  }

  /** The events that ExpireOldEvents keeps. */
  function Recent(events: seq<Event>, cutoff: int): seq<Event> {
    if events == [] then []
    else Recent(events[..|events| - 1], cutoff) +
         if events[|events| - 1].at > cutoff then [events[|events| - 1]] else []
  }

  // ---------- The manager ----------

  class FeedbackManager {
    const config: Config
    const maxEvents: nat
    const windowDuration: int
    var events: map<string, seq<Event>>
    var stats: map<string, Stats>

    ghost predicate Valid()
      reads this
    {
      events.Keys == stats.Keys
    }

    constructor (config: Config, maxEvents: nat, windowDuration: int)
      ensures Valid() && events == map[] && stats == map[]
      ensures this.config == config && this.maxEvents == maxEvents && this.windowDuration == windowDuration
    {
      this.config, this.maxEvents, this.windowDuration := config, maxEvents, windowDuration;
      events, stats := map[], map[];
    }

    method RecordFeedback(r: Report, now: int)
      requires Valid()
      modifies this
      ensures Valid()
      ensures var d := r.device;
        && stats == old(stats)[d := Recorded(config, Get(old(stats), d, NewStats(now)), r)]
        && events == old(events)[d := WithEvent(config, maxEvents, Get(old(events), d, []), r, now)]
    {
      if r.device !in events {
        events := events[r.device := []];
        stats := stats[r.device := NewStats(now)];
      }
      ghost var before := stats[r.device];
      var trustDelta := TrustDelta(config, r.outcome);
      Store(Event(r, trustDelta, now));
      UpdateStats(r, trustDelta);
      assert stats[r.device] == Updated(config, before, r);
      if ShouldReProbe(config, stats[r.device]) {
        stats := stats[r.device := stats[r.device].(needsReProbe := true)];
      }
      assert stats[r.device] == Recorded(config, before, r);
    }

    /** The part of recordFeedback that appends the event and trims the oldest ones. */
    method Store(e: Event)
      requires e.report.device in events
      modifies this`events
      ensures var d := e.report.device;
        events == old(events)[d := LastOf(old(events)[d] + [e], maxEvents)]
    {
      var deviceEvents := events[e.report.device];
      deviceEvents := deviceEvents + [e];
      if |deviceEvents| > maxEvents {
        deviceEvents := deviceEvents[|deviceEvents| - maxEvents..];
      }
      events := events[e.report.device := deviceEvents];
    }

    method UpdateStats(r: Report, trustDelta: real)
      requires r.device in stats && trustDelta == TrustDelta(config, r.outcome)
      modifies this`stats
      ensures stats == old(stats)[r.device := Updated(config, old(stats)[r.device], r)]
    {
      var s := stats[r.device];
      s := s.(total := s.total + 1);
      s := s.(outcomes := s.outcomes[r.outcome := Get(s.outcomes, r.outcome, 0) + 1]);
      if r.videoCodec != "" {
        s := s.(codecs := CountCodec(s.codecs, "video:" + r.videoCodec, r.outcome.Success?));
        if r.outcome.Success? {
          s := s.(successful := s.successful + 1, inARow := s.inARow + 1, failedInARow := 0);
        } else {
          s := s.(failed := s.failed + 1, failedInARow := s.failedInARow + 1, inARow := 0);
        }
      }
      if r.audioCodec != "" {
        s := s.(codecs := CountCodec(s.codecs, "audio:" + r.audioCodec, r.outcome.Success?));
        if r.videoCodec == "" {
          if r.outcome.Success? {
            s := s.(successful := s.successful + 1, inARow := s.inARow + 1, failedInARow := 0);
          } else {
            s := s.(failed := s.failed + 1, failedInARow := s.failedInARow + 1, inARow := 0);
          }
        }
      }
      s := s.(trust := Clamp(config, s.trust + trustDelta));
      if s.inARow >= config.streakThreshold {
        s := s.(trust := Clamp(config, s.trust + config.streakBonus));
      }
      stats := stats[r.device := s];
    }

    method ResetTrustAdjustment(device: string)
      requires Valid()
      modifies this`stats
      ensures Valid()
      ensures stats == if device in old(stats) then old(stats)[device := Reset(old(stats)[device])] else old(stats)
    {
      if device in stats {
        stats := stats[device := Reset(stats[device])];
      }
    }

    /** runDecay: every device once. */
    method RunDecay()
      requires Valid()
      modifies this`stats
      ensures Valid()
      ensures forall d :: d in stats ==> stats[d] == old(stats)[d].(trust := Decayed(old(stats)[d].trust))
    {
      var todo := stats.Keys;
      while todo != {}
        invariant todo <= stats.Keys == old(stats).Keys
        invariant forall d :: d in todo ==> stats[d] == old(stats)[d]
        invariant forall d :: d in stats && d !in todo ==>
                    stats[d] == old(stats)[d].(trust := Decayed(old(stats)[d].trust))
        decreases |todo|
      {
        var d :| d in todo;
        var oldDelta := stats[d].trust;
        if oldDelta != 0.0 {
          var newDelta := oldDelta * (1.0 - 0.1);
          if oldDelta > 0.0 {
            if newDelta < 0.01 { newDelta := 0.0; }
          } else {
            if newDelta > -0.01 { newDelta := 0.0; }
          }
          if newDelta != oldDelta {
            stats := stats[d := stats[d].(trust := newDelta)];
          }
        }
        todo := todo - {d};
      }
    }

    method ExpireOldEvents(now: int)
      requires Valid()
      modifies this`events
      ensures Valid()
      ensures forall d :: d in events ==> events[d] == Recent(old(events)[d], now - windowDuration)
    {
      var todo := events.Keys;
      while todo != {}
        invariant todo <= events.Keys == old(events).Keys
        invariant forall d :: d in todo ==> events[d] == old(events)[d]
        invariant forall d :: d in events && d !in todo ==> events[d] == Recent(old(events)[d], now - windowDuration)
        decreases |todo|
      {
        var d :| d in todo;
        var recent := [];
        for i := 0 to |events[d]|
          invariant recent == Recent(events[d][..i], now - windowDuration)
        {
          assert events[d][..i + 1][..i] == events[d][..i];
          if events[d][i].at > now - windowDuration {
            recent := recent + [events[d][i]];
          }
        }
        assert events[d][..|events[d]|] == events[d];
        events := events[d := recent];
        todo := todo - {d};
      }
    }
  }
}
