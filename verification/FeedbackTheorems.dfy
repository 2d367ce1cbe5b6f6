/**
 What the feedback counters and the trust adjustment are, as functions of the whole history of one
 device.
 */
module FeedbackTheorems {
  import opened Options
  import opened Feedback

  /** What can happen to what the manager keeps of one device. */
  datatype Op = Feed(report: Report, at: int) | ResetTrust | Decay | Expire(now: int)

  function Apply(c: Config, s: Stats, op: Op): Stats {
    match op
    case Feed(r, _) => Recorded(c, s, r)
    case ResetTrust => Reset(s)
    case Decay => s.(trust := Decayed(s.trust))
    case Expire(_) => s
  }

  /** The statistics after `h`, the latest operation last. */
  function After(c: Config, h: seq<Op>): Stats {
    if h == [] then NewStats(0) else Apply(c, After(c, h[..|h| - 1]), h[|h| - 1])
  }

  function Reports(h: seq<Op>): seq<Report> {
    if h == [] then []
    else if h[|h| - 1].Feed? then Reports(h[..|h| - 1]) + [h[|h| - 1].report]
    else Reports(h[..|h| - 1])
  }

  predicate Names(r: Report, key: string) {
    || (r.videoCodec != "" && key == "video:" + r.videoCodec)
    || (r.audioCodec != "" && key == "audio:" + r.audioCodec)
  }

  predicate NamesCodec(r: Report) {
    r.videoCodec != "" || r.audioCodec != ""
  }

  /** What a counter counts. */
  datatype Class =
    | OfOutcome(o: Outcome) | AnyCodec | AnyCodecThat(ok: bool)
    | Naming(key: string) | NamingThat(key: string, ok: bool)

  predicate In(r: Report, x: Class) {
    match x
    case OfOutcome(o) => r.outcome == o
    case AnyCodec => NamesCodec(r)
    case AnyCodecThat(ok) => NamesCodec(r) && r.outcome.Success? == ok
    case Naming(key) => Names(r, key)
    case NamingThat(key, ok) => Names(r, key) && r.outcome.Success? == ok
  }

  function Count(rs: seq<Report>, x: Class): nat {
    if rs == [] then 0 else Count(rs[..|rs| - 1], x) + if In(rs[|rs| - 1], x) then 1 else 0
  }

  // ---------- Counters ----------

  lemma CountSnoc(rs: seq<Report>, r: Report, x: Class)
    ensures Count(rs + [r], x) == Count(rs, x) + if In(r, x) then 1 else 0
  {
    assert (rs + [r])[..|rs|] == rs;
  }

  /** The counters of s are those of the reports rs. */
  ghost predicate Counters(s: Stats, rs: seq<Report>) {
    && s.total == |rs|
    && (forall o :: Get(s.outcomes, o, 0) == Count(rs, OfOutcome(o)))
    && s.successful == Count(rs, AnyCodecThat(true))
    && s.failed == Count(rs, AnyCodecThat(false))
  }

  ghost predicate CodecCounters(s: Stats, rs: seq<Report>, key: string) {
    var k := Get(s.codecs, key, NO_CODEC);
    && k.successes == Count(rs, NamingThat(key, true))
    && k.failures == Count(rs, NamingThat(key, false))
    && k.attempts == Count(rs, Naming(key))
  }

  lemma CountersKept(c: Config, s: Stats, rs: seq<Report>, r: Report)
    requires Counters(s, rs)
    ensures Counters(Recorded(c, s, r), rs + [r])
  {
    forall o
      ensures Get(Recorded(c, s, r).outcomes, o, 0) == Count(rs + [r], OfOutcome(o))
    {
      CountSnoc(rs, r, OfOutcome(o));
    }
    CountSnoc(rs, r, AnyCodecThat(true));
    CountSnoc(rs, r, AnyCodecThat(false));
  }

  lemma CodecCounted(s: Stats, r: Report, key: string)
    ensures var k, ok := Get(s.codecs, key, NO_CODEC), r.outcome.Success?;
      Get(Counted(s, r).codecs, key, NO_CODEC) ==
      if !Names(r, key) then k
      else CodecStats(k.attempts + 1, k.successes + (if ok then 1 else 0), k.failures + if ok then 0 else 1)
  {
    assert ("video:" + r.videoCodec)[0] == 'v' && ("audio:" + r.audioCodec)[0] == 'a';
  }

  lemma CodecCountersKept(c: Config, s: Stats, rs: seq<Report>, r: Report, key: string)
    requires CodecCounters(s, rs, key)
    ensures CodecCounters(Recorded(c, s, r), rs + [r], key)
  {
    CodecCounted(s, r, key);
    CountSnoc(rs, r, NamingThat(key, true));
    CountSnoc(rs, r, NamingThat(key, false));
    CountSnoc(rs, r, Naming(key));
  }

  /** After any history every counter is the number of reports that it is named after. */
  lemma {:induction false} CountersRefineHistory(c: Config, h: seq<Op>, key: string)
    ensures Counters(After(c, h), Reports(h)) && CodecCounters(After(c, h), Reports(h), key)
    decreases |h|
  {
    if h != [] {
      var before := h[..|h| - 1];
      CountersRefineHistory(c, before, key);
      match h[|h| - 1] {
        case Feed(r, _) =>
          CountersKept(c, After(c, before), Reports(before), r);
          CodecCountersKept(c, After(c, before), Reports(before), r, key);
        case _ =>
      }
    }
  }

  function SumOfOutcomes(m: map<Outcome, int>): int {
    Get(m, Unknown, 0) + Get(m, Success, 0) + Get(m, NetworkError, 0) + Get(m, CodecError, 0) +
    Get(m, DecodingFailed, 0) + Get(m, RendererCrash, 0) + Get(m, UnsupportedFormat, 0) +
    Get(m, Timeout, 0) + Get(m, Buffering, 0)
  }

  /** The laws between the counters: each sum comes out. */
  lemma CountersAddUp(c: Config, h: seq<Op>, key: string)
    ensures var s, k := After(c, h), Get(After(c, h).codecs, key, NO_CODEC);
      && s.successful + s.failed == Count(Reports(h), AnyCodec) <= s.total
      && k.successes + k.failures == k.attempts
      && SumOfOutcomes(s.outcomes) == s.total
  {
    CountersRefineHistory(c, h, key);
    CountsAddUp(Reports(h), key);
  }

  lemma {:induction false} CountsAddUp(rs: seq<Report>, key: string)
    ensures Count(rs, AnyCodecThat(true)) + Count(rs, AnyCodecThat(false)) == Count(rs, AnyCodec) <= |rs|
    ensures Count(rs, NamingThat(key, true)) + Count(rs, NamingThat(key, false)) == Count(rs, Naming(key))
    ensures |rs| ==
            Count(rs, OfOutcome(Unknown)) + Count(rs, OfOutcome(Success)) + Count(rs, OfOutcome(NetworkError)) +
            Count(rs, OfOutcome(CodecError)) + Count(rs, OfOutcome(DecodingFailed)) +
            Count(rs, OfOutcome(RendererCrash)) + Count(rs, OfOutcome(UnsupportedFormat)) +
            Count(rs, OfOutcome(Timeout)) + Count(rs, OfOutcome(Buffering))
    decreases |rs|
  {
    if rs != [] {
      CountsAddUp(rs[..|rs| - 1], key);
    }
  }

  // ---------- Streaks ----------

  /** Success or failure of the codec-bearing reports since the last reset. */
  function SinceReset(h: seq<Op>): seq<bool> {
    if h == [] then []
    else
      var before := SinceReset(h[..|h| - 1]);
      match h[|h| - 1]
      case Feed(r, _) => if NamesCodec(r) then before + [r.outcome.Success?] else before
      case ResetTrust => []
      case _ => before
  }

  /** The last n results are all `ok`, and the one before them, if any, is not. */
  predicate Trailing(results: seq<bool>, ok: bool, n: int) {
    && 0 <= n <= |results|
    && (forall i :: |results| - n <= i < |results| ==> results[i] == ok)
    && (n < |results| ==> results[|results| - n - 1] != ok)
  }

  /** The consecutive counters are the trailing runs of successes and failures. */
  lemma {:induction false} StreaksAreTrailing(c: Config, h: seq<Op>)
    ensures var s := After(c, h);
      && Trailing(SinceReset(h), true, s.inARow) && Trailing(SinceReset(h), false, s.failedInARow)
      && (s.inARow == 0 || s.failedInARow == 0)
    decreases |h|
  {
    if h != [] {
      StreaksAreTrailing(c, h[..|h| - 1]);
    }
  }

  // ---------- Stored events ----------

  /** How many events the manager keeps of a device, and for how long. */
  datatype Keeping = Keeping(maxEvents: nat, window: int)

  /** The events that the manager stores of the device after `h`. */
  function StoredAfter(c: Config, k: Keeping, h: seq<Op>): seq<Event> {
    if h == [] then [] else StoredNext(c, k, StoredAfter(c, k, h[..|h| - 1]), h[|h| - 1])
  }

  function StoredNext(c: Config, k: Keeping, stored: seq<Event>, op: Op): seq<Event> {
    match op
    case Feed(r, at) => WithEvent(c, k.maxEvents, stored, r, at)
    case Expire(now) => Recent(stored, now - k.window)
    case _ => stored
  }

  /** The events of all reports ever made, oldest first. */
  function AllEvents(c: Config, h: seq<Op>): seq<Event> {
    if h == [] then [] else AllNext(c, AllEvents(c, h[..|h| - 1]), h[|h| - 1])
  }

  function AllNext(c: Config, all: seq<Event>, op: Op): seq<Event> {
    if op.Feed? then all + [Event(op.report, TrustDelta(c, op.report.outcome), op.at)] else all
  }

  /** Reports and expiries come in the order of their times. */
  predicate InOrder(h: seq<Op>) {
    forall i, j :: 0 <= i < j < |h| && TimeOf(h[i]).Some? && TimeOf(h[j]).Some? ==>
      TimeOf(h[i]).value <= TimeOf(h[j]).value
  }

  function TimeOf(op: Op): Option<int> {
    match op
    case Feed(_, at) => Some(at)
    case Expire(now) => Some(now)
    case _ => None
  }

  /** Keeping only the last n after each addition keeps the last n of all. */
  lemma LastOfLast<T>(s: seq<T>, x: T, n: nat)
    ensures LastOf(LastOf(s, n) + [x], n) == LastOf(s + [x], n)
  {
    if |s| > n {
      assert LastOf(s, n) + [x] == (s + [x])[|s| - n..];
    }
  }

  /** When nothing has been expired, the stored events are the last `maxEvents` of the history. */
  lemma {:induction false} StoredAreLast(c: Config, k: Keeping, h: seq<Op>)
    requires forall i :: 0 <= i < |h| ==> !h[i].Expire?
    ensures StoredAfter(c, k, h) == LastOf(AllEvents(c, h), k.maxEvents)
    decreases |h|
  {
    if h != [] {
      var before, op := h[..|h| - 1], h[|h| - 1];
      StoredAreLast(c, k, before);
      if op.Feed? {
        LastOfLast(AllEvents(c, before), Event(op.report, TrustDelta(c, op.report.outcome), op.at), k.maxEvents);
      }
    }
  }

  /** The time of the latest expiry, before which nothing is left. */
  function Cutoff(k: Keeping, h: seq<Op>): Option<int> {
    if h == [] then None else CutoffNext(k, Cutoff(k, h[..|h| - 1]), h[|h| - 1])
  }

  function CutoffNext(k: Keeping, cutoff: Option<int>, op: Op): Option<int> {
    if op.Expire? then Some(op.now - k.window) else cutoff
  }

  function NewerThan(cutoff: Option<int>, events: seq<Event>): seq<Event> {
    if cutoff.None? then events else Recent(events, cutoff.value)
  }

  predicate Sorted(events: seq<Event>) {
    forall i, j :: 0 <= i < j < |events| ==> events[i].at <= events[j].at
  }

  lemma {:induction false} RecentNone(events: seq<Event>, cutoff: int)
    requires forall i :: 0 <= i < |events| ==> events[i].at <= cutoff
    ensures Recent(events, cutoff) == []
    decreases |events|
  {
    if events != [] {
      RecentNone(events[..|events| - 1], cutoff);
    }
  }

  lemma RecentSnoc(events: seq<Event>, e: Event, cutoff: int)
    ensures Recent(events + [e], cutoff) == Recent(events, cutoff) + if e.at > cutoff then [e] else []
  {
    assert (events + [e])[..|events|] == events;
  }

  lemma {:induction false} RecentTwice(events: seq<Event>, cutoff: int, later: int)
    requires cutoff <= later
    ensures Recent(Recent(events, cutoff), later) == Recent(events, later)
    decreases |events|
  {
    if events != [] {
      var front, e := events[..|events| - 1], events[|events| - 1];
      RecentTwice(front, cutoff, later);
      if e.at > cutoff {
        RecentSnoc(Recent(front, cutoff), e, later);
      } else {
        assert Recent(events, cutoff) == Recent(front, cutoff);
      }
    }
  }

  lemma LastOfSnoc<T>(s: seq<T>, x: T, n: nat)
    ensures LastOf(s + [x], n) == if n == 0 then [] else LastOf(s, n - 1) + [x]
  {
  }

  lemma LastOfNone<T>(s: seq<T>)
    ensures LastOf(s, 0) == []
  {
  }

  lemma FrontSorted(events: seq<Event>)
    requires Sorted(events) && events != []
    ensures Sorted(events[..|events| - 1])
  {
  }

  /** Of events in order, it does not matter whether the oldest are dropped by number or by age first. */
  lemma {:induction false} RecentOfLast(events: seq<Event>, n: nat, cutoff: int)
    requires Sorted(events)
    ensures Recent(LastOf(events, n), cutoff) == LastOf(Recent(events, cutoff), n)
    decreases |events|
  {
    if n == 0 {
      LastOfNone(events);
      LastOfNone(Recent(events, cutoff));
    } else if events != [] && events[|events| - 1].at <= cutoff {
      NoneLeft(events, n, cutoff);
    } else if events != [] {
      var front, e := events[..|events| - 1], events[|events| - 1];
      FrontSorted(events);
      assert events == front + [e];
      RecentOfLast(front, n - 1, cutoff);
      RecentOfLastSnoc(front, e, n, cutoff);
    }
  }

  lemma RecentOfLastSnoc(front: seq<Event>, e: Event, n: nat, cutoff: int)
    requires n > 0 && e.at > cutoff && Recent(LastOf(front, n - 1), cutoff) == LastOf(Recent(front, cutoff), n - 1)
    ensures Recent(LastOf(front + [e], n), cutoff) == LastOf(Recent(front + [e], cutoff), n)
  {
    LastOfSnoc(front, e, n);
    RecentSnoc(LastOf(front, n - 1), e, cutoff);
    RecentSnoc(front, e, cutoff);
    LastOfSnoc(Recent(front, cutoff), e, n);
  }

  lemma NoneLeft(events: seq<Event>, n: nat, cutoff: int)
    requires Sorted(events) && events != [] && events[|events| - 1].at <= cutoff
    ensures Recent(LastOf(events, n), cutoff) == [] && Recent(events, cutoff) == []
  {
    RecentNone(events, cutoff);
    RecentNone(LastOf(events, n), cutoff);
  }

  predicate UpTo(h: seq<Op>, t: int) {
    forall i :: 0 <= i < |h| && TimeOf(h[i]).Some? ==> TimeOf(h[i]).value <= t
  }

  lemma {:induction false} AllEventsSorted(c: Config, k: Keeping, h: seq<Op>, t: int)
    requires InOrder(h) && UpTo(h, t)
    ensures Sorted(AllEvents(c, h)) && forall i :: 0 <= i < |AllEvents(c, h)| ==> AllEvents(c, h)[i].at <= t
    ensures Cutoff(k, h).Some? ==> Cutoff(k, h).value <= t - k.window
    decreases |h|
  {
    if h != [] {
      var op := h[|h| - 1];
      AllEventsSorted(c, k, h[..|h| - 1], if TimeOf(op).Some? then TimeOf(op).value else t);
    }
  }

  /** What the manager stores is the last `maxEvents` of the events that are newer than the latest expiry left. */
  ghost predicate StoresRecent(c: Config, k: Keeping, h: seq<Op>) {
    StoredAfter(c, k, h) == LastOf(NewerThan(Cutoff(k, h), AllEvents(c, h)), k.maxEvents)
  }

  /** So it does in every history in order, expiries included. */
  lemma {:induction false} StoredAreRecent(c: Config, k: Keeping, h: seq<Op>)
    requires InOrder(h) && 0 < k.window
    ensures StoresRecent(c, k, h)
    decreases |h|
  {
    if h != [] {
      var before, op := h[..|h| - 1], h[|h| - 1];
      StoredAreRecent(c, k, before);
      if TimeOf(op).Some? {
        AllEventsSorted(c, k, before, TimeOf(op).value);
      }
      match op {
        case Feed(r, at) => FeedStores(c, k, before, r, at);
        case Expire(now) => ExpiryStores(c, k, before, now);
        case _ =>
      }
      assert h == before + [op];
    }
  }

  lemma FeedStores(c: Config, k: Keeping, h: seq<Op>, r: Report, at: int)
    requires StoresRecent(c, k, h) && (Cutoff(k, h).Some? ==> Cutoff(k, h).value < at)
    ensures StoresRecent(c, k, h + [Feed(r, at)])
  {
    assert (h + [Feed(r, at)])[..|h|] == h;
    OneMoreEvent(k, Cutoff(k, h), AllEvents(c, h), Event(r, TrustDelta(c, r.outcome), at));
  }

  lemma ExpiryStores(c: Config, k: Keeping, h: seq<Op>, now: int)
    requires StoresRecent(c, k, h) && Sorted(AllEvents(c, h))
    requires Cutoff(k, h).Some? ==> Cutoff(k, h).value <= now - k.window
    ensures StoresRecent(c, k, h + [Expire(now)])
  {
    assert (h + [Expire(now)])[..|h|] == h;
    OneMoreExpiry(k, Cutoff(k, h), AllEvents(c, h), now);
  }

  lemma OneMoreEvent(k: Keeping, cutoff: Option<int>, all: seq<Event>, e: Event)
    requires cutoff.Some? ==> cutoff.value < e.at
    ensures LastOf(LastOf(NewerThan(cutoff, all), k.maxEvents) + [e], k.maxEvents) ==
            LastOf(NewerThan(cutoff, all + [e]), k.maxEvents)
  {
    LastOfLast(NewerThan(cutoff, all), e, k.maxEvents);
    if cutoff.Some? {
      RecentSnoc(all, e, cutoff.value);
    }
  }

  lemma OneMoreExpiry(k: Keeping, cutoff: Option<int>, all: seq<Event>, now: int)
    requires Sorted(all) && (cutoff.Some? ==> cutoff.value <= now - k.window)
    ensures Recent(LastOf(NewerThan(cutoff, all), k.maxEvents), now - k.window) ==
            LastOf(Recent(all, now - k.window), k.maxEvents)
  {
    var newer, later := NewerThan(cutoff, all), now - k.window;
    assert Sorted(newer) && Recent(newer, later) == Recent(all, later) by {
      if cutoff.Some? {
        RecentSorted(all, cutoff.value);
        RecentTwice(all, cutoff.value, later);
      }
    }
    RecentOfLast(newer, k.maxEvents, later);
  }

  lemma {:induction false} RecentSorted(events: seq<Event>, cutoff: int)
    requires Sorted(events)
    ensures Sorted(Recent(events, cutoff)) && forall e :: e in Recent(events, cutoff) ==> e in events
    decreases |events|
  {
    if events != [] {
      var front, e := events[..|events| - 1], events[|events| - 1];
      RecentSorted(front, cutoff);
      forall i | 0 <= i < |Recent(front, cutoff)|
        ensures Recent(front, cutoff)[i].at <= e.at
      {
        assert Recent(front, cutoff)[i] in front;
      }
    }
  }

  // ---------- The trust walk ----------

  lemma DecayedTowardsZero(x: real)
    ensures 0.0 <= x ==> 0.0 <= Decayed(x) <= x
    ensures x <= 0.0 ==> x <= Decayed(x) <= 0.0
  {
  }

  /** With zero between the limits, the adjustment never leaves them, whatever happens. */
  lemma {:induction false} TrustInRange(c: Config, h: seq<Op>)
    requires c.minTrust <= 0.0 <= c.maxTrust
    ensures c.minTrust <= After(c, h).trust <= c.maxTrust
    decreases |h|
  {
    if h != [] {
      TrustInRange(c, h[..|h| - 1]);
      DecayedTowardsZero(After(c, h[..|h| - 1]).trust);
    }
  }

  function Fed(c: Config, s: Stats, rs: seq<Report>): Stats
    decreases |rs|
  {
    if rs == [] then s else Fed(c, Recorded(c, s, rs[0]), rs[1..])
  }

  /** Same counters, other trust. */
  predicate SameButTrust(s: Stats, t: Stats) {
    t == s.(trust := t.trust)
  }

  lemma AdjustedLipschitz(c: Config, x: real, y: real, delta: real, inARow: int)
    requires x <= y
    ensures 0.0 <= Adjusted(c, y, delta, inARow) - Adjusted(c, x, delta, inARow) <= y - x
  {
    assert 0.0 <= Clamp(c, y + delta) - Clamp(c, x + delta) <= y - x;
  }

  lemma RecordedSame(c: Config, s: Stats, t: Stats, r: Report)
    requires SameButTrust(s, t)
    ensures SameButTrust(Recorded(c, s, r), Recorded(c, t, r))
    ensures Counted(s, r).inARow == Counted(t, r).inARow
  {
  }

  /**
   The same feedback from two starting adjustments: the order is kept and the distance never grows,
   for any configuration.
   */
  lemma {:induction false} TrustLipschitz(c: Config, s: Stats, t: Stats, rs: seq<Report>)
    requires SameButTrust(s, t) && s.trust <= t.trust
    ensures SameButTrust(Fed(c, s, rs), Fed(c, t, rs))
    ensures 0.0 <= Fed(c, t, rs).trust - Fed(c, s, rs).trust <= t.trust - s.trust
    decreases |rs|
  {
    if rs != [] {
      RecordedSame(c, s, t, rs[0]);
      AdjustedLipschitz(c, s.trust, t.trust, TrustDelta(c, rs[0].outcome), Counted(s, rs[0]).inARow);
      TrustLipschitz(c, Recorded(c, s, rs[0]), Recorded(c, t, rs[0]), rs[1..]);
    }
  }

  /** GetEffectiveTrustScore, from the resolver's base score and the adjustment. */
  function EffectiveTrust(base: real, adjustment: real): real {
    var score := base + adjustment;
    var capped := if score > 1.0 then 1.0 else score;
    if capped < 0.0 then 0.0 else capped
  }

  /** A report of the outcome takes the adjustment from zero below it, after n successes in a row. */
  predicate Lowers(c: Config, o: Outcome, n: int) {
    Adjusted(c, 0.0, TrustDelta(c, o), n) < 0.0
  }

  /** As many successes in a row as make a streak. */
  function StreakLength(c: Config): nat {
    if c.streakThreshold > 0 then c.streakThreshold else 0
  }

  /** Some outcome lowers the adjustment from zero, be it with the bonus of a streak or without. */
  predicate Penalizes(c: Config) {
    exists o :: Lowers(c, o, 0) || Lowers(c, o, StreakLength(c))
  }

  /** From zero upwards nothing lowers it further than from zero. */
  lemma LowersFromZero(c: Config, trust: real, o: Outcome, n: nat)
    requires 0.0 <= trust && Adjusted(c, trust, TrustDelta(c, o), n) < 0.0
    ensures Lowers(c, o, if n >= c.streakThreshold then StreakLength(c) else 0)
  {
    AdjustedLipschitz(c, 0.0, trust, TrustDelta(c, o), n);
  }

  lemma {:induction false} TrustNeverNegative(c: Config, h: seq<Op>)
    requires !Penalizes(c)
    ensures 0.0 <= After(c, h).trust
    decreases |h|
  {
    if h != [] {
      var before, op := h[..|h| - 1], h[|h| - 1];
      TrustNeverNegative(c, before);
      DecayedTowardsZero(After(c, before).trust);
      StreaksAreTrailing(c, h);
      if op.Feed? && After(c, h).trust < 0.0 {
        LowersFromZero(c, After(c, before).trust, op.report.outcome, After(c, h).inARow);
      }
    }
  }

  lemma AfterOneMore(c: Config, h: seq<Op>, op: Op)
    ensures After(c, h + [op]) == Apply(c, After(c, h), op)
  {
    assert (h + [op])[..|h|] == h;
  }

  lemma {:induction false} Streak(c: Config, n: nat) returns (h: seq<Op>)
    ensures After(c, h).inARow == n
  {
    if n == 0 {
      h := [];
    } else {
      var before := Streak(c, n - 1);
      var success := Feed(Report("", Success, "h264", ""), 0);
      AfterOneMore(c, before, success);
      h := before + [success];
    }
  }

  lemma DecaysByAStep(x: real)
    requires 0.0 <= x && Decayed(x) != 0.0
    ensures 0 <= (1000.0 * Decayed(x)).Floor < (1000.0 * x).Floor
  {
    assert 1000.0 * Decayed(x) + 1.0 <= 1000.0 * x;
  }

  /** Decay runs take the adjustment to zero, and leave the streak alone. */
  lemma {:induction false} DecayAway(c: Config, h: seq<Op>) returns (h': seq<Op>)
    requires 0.0 <= After(c, h).trust
    ensures After(c, h').trust == 0.0 && After(c, h').inARow == After(c, h).inARow
    decreases (1000.0 * After(c, h).trust).Floor
  {
    h' := h + [Decay];
    AfterOneMore(c, h, Decay);
    if After(c, h').trust != 0.0 {
      DecaysByAStep(After(c, h).trust);
      h' := DecayAway(c, h');
    }
  }

  /** A report that names no codec neither breaks nor extends a streak. */
  lemma ReportLowers(c: Config, h: seq<Op>, o: Outcome) returns (h': seq<Op>)
    requires After(c, h).trust == 0.0 && Lowers(c, o, After(c, h).inARow)
    ensures After(c, h').trust < 0.0
  {
    h' := h + [Feed(Report("", o, "", ""), 0)];
    AfterOneMore(c, h, Feed(Report("", o, "", ""), 0));
  }

  lemma SomePenalty(c: Config) returns (h: seq<Op>)
    requires Penalizes(c)
    ensures After(c, h).trust < 0.0
  {
    var o :| Lowers(c, o, 0) || Lowers(c, o, StreakLength(c));
    if Lowers(c, o, 0) {
      h := ReportLowers(c, [], o);
    } else {
      h := Streak(c, StreakLength(c));
      if After(c, h).trust >= 0.0 {
        h := DecayAway(c, h);
        h := ReportLowers(c, h, o);
      }
    }
  }

  /**
   For every configuration: some history takes a device below its base score iff some outcome lowers
   the adjustment from zero, at the start or in a streak.
   */
  lemma PenalizesIff(c: Config, base: real)
    requires 0.0 < base <= 1.0
    ensures (exists h :: EffectiveTrust(base, After(c, h).trust) < base) <==> Penalizes(c)
  {
    if Penalizes(c) {
      var h := SomePenalty(c);
      assert EffectiveTrust(base, After(c, h).trust) < base;
    } else {
      forall h
        ensures EffectiveTrust(base, After(c, h).trust) >= base
      {
        TrustNeverNegative(c, h);
      }
    }
  }

  /**
   Where zero lies within the limits and streaks do not penalize: iff the minimum is negative and some
   outcome is penalized.
   */
  lemma PenalizesOutcomesIff(c: Config)
    requires c.minTrust <= 0.0 <= c.maxTrust && 0.0 <= c.streakBonus && 0 < c.streakThreshold
    ensures Penalizes(c) <==> c.minTrust < 0.0 && exists o :: TrustDelta(c, o) < 0.0
  {
    if c.minTrust < 0.0 && exists o :: TrustDelta(c, o) < 0.0 {
      var o :| TrustDelta(c, o) < 0.0;
      assert Lowers(c, o, 0);
    }
  }

  /** The default minimum is zero, so no history of failures ever brings a device below its base score. */
  lemma DefaultNeverPenalizes(h: seq<Op>, base: real)
    requires 0.0 <= base <= 1.0
    ensures base <= EffectiveTrust(base, After(DEFAULT_CONFIG, h).trust) <= 1.0
  {
    if base > 0.0 {
      PenalizesOutcomesIff(DEFAULT_CONFIG);
      PenalizesIff(DEFAULT_CONFIG, base);
    }
  }

  // ---------- Decay ----------

  function DecayedTimes(x: real, n: nat): real {
    if n == 0 then x else Decayed(DecayedTimes(x, n - 1))
  }

  function Power(n: nat): real {
    if n == 0 then 1.0 else 0.9 * Power(n - 1)
  }

  lemma {:induction false} PowerAdd(m: nat, n: nat)
    ensures Power(m + n) == Power(m) * Power(n)
  {
    if m > 0 {
      PowerAdd(m - 1, n);
      assert Power(m + n) == 0.9 * (Power(m - 1) * Power(n));
    }
  }

  lemma PowersAroundTheEnd()
    ensures Power(44) < 0.01 < Power(43)
  {
    assert Power(2) == 0.81 && Power(4) == 0.6561;
    PowerAdd(4, 4);
    assert Power(8) == 0.43046721;
    assert Power(3) == 0.729;
    PowerAdd(8, 3);
    PowerAdd(11, 11);
    var eleven, half := Power(11), Power(22);
    assert 0.3138 < eleven < 0.3139;
    assert half == eleven * eleven;
    assert 0.0984 < half < 0.0986;
    PowerAdd(22, 22);
    assert 0.00968 < half * half < 0.00973;
    assert Power(44) == 0.9 * Power(43);
  }

  lemma {:induction false} DecayBound(x: real, n: nat)
    requires 0.0 <= x <= 1.0
    ensures 0.0 <= DecayedTimes(x, n) <= Power(n)
    ensures n > 0 ==> DecayedTimes(x, n) == 0.0 || 0.01 <= DecayedTimes(x, n)
  {
    if n > 0 {
      DecayBound(x, n - 1);
    }
  }

  lemma {:induction false} DecayOdd(x: real, n: nat)
    ensures DecayedTimes(-x, n) == -DecayedTimes(x, n)
  {
    if n > 0 {
      DecayOdd(x, n - 1);
    }
  }

  /** Any adjustment between -1 and 1 is gone after 44 decay runs, */
  lemma DecaysToZero(x: real)
    requires -1.0 <= x <= 1.0
    ensures DecayedTimes(x, 44) == 0.0
  {
    PowersAroundTheEnd();
    if x >= 0.0 {
      DecayBound(x, 44);
    } else {
      DecayBound(-x, 44);
      DecayOdd(-x, 44);
    }
  }

  lemma {:induction false} DecaysByPowers(n: nat)
    requires n <= 43
    ensures DecayedTimes(1.0, n) == Power(n) && Power(43) <= Power(n)
    decreases n
  {
    PowersAroundTheEnd();
    PowersFall(n, 43);
    if n > 0 {
      DecaysByPowers(n - 1);
    }
  }

  lemma {:induction false} PowersFall(m: nat, n: nat)
    requires m <= n
    ensures 0.0 < Power(n) <= Power(m)
    decreases n
  {
    if n > m {
      PowersFall(m, n - 1);
    } else if n > 0 {
      PowersFall(n - 1, n - 1);
    }
  }

  /** and an adjustment of 1 is not gone after 43. */
  lemma FortyThreeAreNotEnough()
    ensures DecayedTimes(1.0, 43) > 0.01
  {
    PowersAroundTheEnd();
    DecaysByPowers(43);
  }
}
