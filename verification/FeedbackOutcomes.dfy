/**
 What each report does to the trust adjustment, told from the configuration, and when a device is to be
 probed again, told from the history.
 */
module FeedbackOutcomes {
  import opened Feedback
  import opened FeedbackTheorems

  // ---------- Trust ----------

  /** The nearest value between the limits; the minimum if they contradict each other. */
  function Limited(c: Config, x: real): real {
    if x < c.minTrust || c.maxTrust < c.minTrust then c.minTrust else if c.maxTrust < x then c.maxTrust else x
  }

  /** What the outcome is worth. Buffering counts half as a network error. */
  function Worth(c: Config, o: Outcome): real {
    match o
    case Success => c.successBonus
    case NetworkError => 0.0 - c.networkPenalty
    case Timeout => 0.0 - c.networkPenalty
    case Buffering => 0.0 - c.networkPenalty / 2.0
    case CodecError => 0.0 - c.codecPenalty
    case UnsupportedFormat => 0.0 - c.codecPenalty
    case DecodingFailed => 0.0 - c.decodingPenalty
    case RendererCrash => 0.0 - c.crashPenalty
    case Unknown => 0.0
  }

  /** The last `n` results are successes. */
  predicate OnStreak(results: seq<bool>, n: int) {
    n <= |results| && forall i :: 0 <= i < |results| && |results| - n <= i ==> results[i]
  }

  /** The last `n` results are failures. */
  predicate OnFailures(results: seq<bool>, n: int) {
    n <= |results| && forall i :: 0 <= i < |results| && |results| - n <= i ==> !results[i]
  }

  lemma StreakIs(c: Config, h: seq<Op>, n: int)
    ensures After(c, h).inARow >= n <==> OnStreak(SinceReset(h), n)
    ensures After(c, h).failedInARow >= n <==> OnFailures(SinceReset(h), n)
  {
    StreaksAreTrailing(c, h);
    TrailingAtLeast(SinceReset(h), true, After(c, h).inARow, n);
    TrailingAtLeast(SinceReset(h), false, After(c, h).failedInARow, n);
  }

  lemma TrailingAtLeast(results: seq<bool>, ok: bool, k: int, n: int)
    requires Trailing(results, ok, k)
    ensures k >= n <==>
            n <= |results| && forall i :: 0 <= i < |results| && |results| - n <= i ==> results[i] == ok
  {
    if k < n <= |results| {
      assert results[|results| - k - 1] != ok;
    }
  }

  /**
   What a report does to the adjustment of a device, after any history: its worth is added, and the
   bonus on top while as many successes in a row as make a streak stand behind it.
   */
  lemma TrustAfterReport(c: Config, h: seq<Op>, r: Report, at: int)
    ensures var after := h + [Feed(r, at)];
      var moved := Limited(c, After(c, h).trust + Worth(c, r.outcome));
      After(c, after).trust ==
      if OnStreak(SinceReset(after), c.streakThreshold) then Limited(c, moved + c.streakBonus) else moved
  {
    var after := h + [Feed(r, at)];
    assert after[..|h|] == h;
    StreakIs(c, after, c.streakThreshold);
  }

  /** A reset forgets trust, streaks and the need to probe again, and nothing else. */
  lemma AfterReset(c: Config, h: seq<Op>)
    ensures var s, after := After(c, h), After(c, h + [ResetTrust]);
      && after == s.(trust := 0.0, inARow := 0, failedInARow := 0, needsReProbe := false)
  {
    assert (h + [ResetTrust])[..|h|] == h;
  }

  /** The default configuration: what each report costs a device with room to both sides and no streak. */
  lemma DefaultCosts(h: seq<Op>, r: Report, at: int)
    requires 0.3 <= After(DEFAULT_CONFIG, h).trust <= 0.99
    requires !OnStreak(SinceReset(h + [Feed(r, at)]), 10)
    ensures After(DEFAULT_CONFIG, h + [Feed(r, at)]).trust - After(DEFAULT_CONFIG, h).trust == match r.outcome
      case Success => 0.01
      case Unknown => 0.0
      case Buffering => -0.025
      case NetworkError => -0.05
      case Timeout => -0.05
      case CodecError => -0.15
      case UnsupportedFormat => -0.15
      case DecodingFailed => -0.25
      case RendererCrash => -0.3
  {
    TrustAfterReport(DEFAULT_CONFIG, h, r, at);
  }

  /** A success on a streak is worth six times as much, and full trust is 1. */
  lemma DefaultStreak(h: seq<Op>, r: Report, at: int)
    requires r.outcome.Success? && 0.0 <= After(DEFAULT_CONFIG, h).trust <= 1.0
    requires OnStreak(SinceReset(h + [Feed(r, at)]), 10)
    ensures After(DEFAULT_CONFIG, h + [Feed(r, at)]).trust ==
            if After(DEFAULT_CONFIG, h).trust <= 0.94 then After(DEFAULT_CONFIG, h).trust + 0.06 else 1.0
  {
    TrustAfterReport(DEFAULT_CONFIG, h, r, at);
  }

  // ---------- Probing again ----------

  /**
   The history ends with so many failures in a row that the device is to be probed, or more than half
   of at least ten reports were failures.
   */
  predicate ProbeIsDue(c: Config, h: seq<Op>) {
    || OnFailures(SinceReset(h), c.failureWindow)
    || (|Reports(h)| >= 10 && 2 * Count(Reports(h), AnyCodecThat(false)) > |Reports(h)|)
  }

  lemma HalfIs(failed: int, total: int)
    requires total >= 10
    ensures failed as real / total as real > 0.5 <==> 2 * failed > total
  {
    var f, t := failed as real, total as real;
    assert f / t > 0.5 <==> f > 0.5 * t by { Quotient(f, t); }
    assert f > 0.5 * t <==> 2 * failed > total;
  }

  lemma Quotient(f: real, t: real)
    requires t > 0.0
    ensures f / t > 0.5 <==> f > 0.5 * t
  {
    var share := f / t;
    assert share * t == f;
    if share > 0.5 {
      TimesMore(share, t);
    } else {
      TimesLess(share, t);
    }
  }

  lemma TimesMore(x: real, t: real)
    requires x > 0.5 && t > 0.0
    ensures x * t > 0.5 * t
  {
  }

  lemma TimesLess(x: real, t: real)
    requires x <= 0.5 && t > 0.0
    ensures x * t <= 0.5 * t
  {
  }

  lemma DueIff(c: Config, h: seq<Op>)
    ensures ShouldReProbe(c, After(c, h)) <==> ProbeIsDue(c, h)
  {
    StreakIs(c, h, c.failureWindow);
    CountersRefineHistory(c, h, "");
    if |Reports(h)| >= 10 {
      HalfIs(After(c, h).failed, After(c, h).total);
    }
  }

  /** By default that is three failures in a row. */
  lemma DefaultProbe(h: seq<Op>)
    ensures OnFailures(SinceReset(h), 3) ==> ProbeIsDue(DEFAULT_CONFIG, h)
    ensures ProbeIsDue(DEFAULT_CONFIG, h) && |Reports(h)| < 10 ==> OnFailures(SinceReset(h), 3)
  {
  }

  /** There was no reset from operation i on. */
  predicate NoResetFrom(h: seq<Op>, i: int) {
    forall j :: 0 <= i <= j < |h| ==> !h[j].ResetTrust?
  }

  /** A report after which a probe was due, at i, and no reset since. */
  predicate AskedAt(c: Config, h: seq<Op>, i: nat) {
    i < |h| && h[i].Feed? && ProbeIsDue(c, h[..i + 1]) && NoResetFrom(h, i)
  }

  lemma AskedBefore(c: Config, h: seq<Op>, i: nat)
    requires h != [] && i < |h| - 1
    ensures AskedAt(c, h, i) <==> AskedAt(c, h[..|h| - 1], i) && !h[|h| - 1].ResetTrust?
  {
    var before := h[..|h| - 1];
    assert before[..i + 1] == h[..i + 1];
    assert forall j :: 0 <= j < |before| ==> before[j] == h[j];
  }

  /** After every history the device is to be probed again iff some report since the last reset made a probe due. */
  lemma {:induction false} NeedsReProbeIff(c: Config, h: seq<Op>)
    ensures After(c, h).needsReProbe <==> exists i :: AskedAt(c, h, i)
    decreases |h|
  {
    if h != [] {
      var n := |h| - 1;
      NeedsReProbeIff(c, h[..n]);
      forall i | 0 <= i < n
        ensures AskedAt(c, h, i) <==> AskedAt(c, h[..n], i) && !h[n].ResetTrust?
      {
        AskedBefore(c, h, i);
      }
      assert h[..n + 1] == h;
      DueIff(c, h);
      OneMoreReport(c, h);
      if exists i :: AskedAt(c, h[..n], i) {
        var i :| AskedAt(c, h[..n], i);
        assert AskedAt(c, h, i) <==> !h[n].ResetTrust?;
      }
      assert AskedAt(c, h, n) <==> h[n].Feed? && ProbeIsDue(c, h);
    }
  }

  /** The last operation: only a report asks for a probe, and only a reset calls it off. */
  lemma OneMoreReport(c: Config, h: seq<Op>)
    requires h != []
    ensures After(c, h).needsReProbe == match h[|h| - 1]
      case Feed(_, _) => After(c, h[..|h| - 1]).needsReProbe || ShouldReProbe(c, After(c, h))
      case ResetTrust => false
      case _ => After(c, h[..|h| - 1]).needsReProbe
  {
  }
}
