/** A breaker as a function of its history. */
module CircuitBreakerHistory {
  // When it changes state, what it counts, and when it lets a call through, told from the events alone.
  // The functions below look at no field but the state.

  import opened CircuitBreaker

  // ---------- What the counters count ----------

  /** The failures that came while the breaker was closed, since the last success that came while it was. */
  function ClosedFailuresInARow(c: Config, es: seq<Event>): nat {
    if es == [] then 0
    else
      var before := es[..|es| - 1];
      var count := ClosedFailuresInARow(c, before);
      if !Run(c, before).state.Closed? then count
      else match es[|es| - 1]
        case Succeed => 0
        case Fail(_) => count + 1
        case Ask(_) => count
  }

  /** The successes that came while the breaker was half open, since it was last closed by one. */
  function Probes(c: Config, es: seq<Event>): nat {
    if es == [] then 0
    else
      var before := es[..|es| - 1];
      if es[|es| - 1].Succeed? && Run(c, before).state.HalfOpen?
      then if Run(c, es).state.Closed? then 0 else Probes(c, before) + 1
      else Probes(c, before)
  }

  lemma {:induction false} CountersAre(c: Config, es: seq<Event>)
    requires Valid(c)
    ensures Run(c, es).failures == ClosedFailuresInARow(c, es) && Run(c, es).successes == Probes(c, es)
    decreases |es|
  {
    if es != [] {
      CountersAre(c, es[..|es| - 1]);
      RunBounds(c, es[..|es| - 1]);
    }
  }

  // ---------- Transitions ----------

  lemma RunOneMore(c: Config, es: seq<Event>, e: Event)
    ensures Run(c, es + [e]) == Step(c, Run(c, es), e)
  {
    assert (es + [e])[..|es|] == es;
  }

  /**
   Every transition, and nothing else changes the state: the failure that reaches the threshold opens
   a closed breaker; a call of Allow more than the timeout after the latest failure half opens an open
   one; a failure reopens a half-open one, and the last success that is needed closes it.
   */
  lemma StateIs(c: Config, es: seq<Event>, e: Event)
    requires Valid(c)
    ensures Run(c, es + [e]).state == match Run(c, es).state
      case Closed => if e.Fail? && ClosedFailuresInARow(c, es) + 1 >= c.failureThreshold then Open else Closed
      case Open => if e.Ask? && e.now > LatestFailure(es) + c.timeout then HalfOpen else Open
      case HalfOpen =>
        if e.Fail? then Open
        else if e.Succeed? && Probes(c, es) + 1 >= c.successThreshold then Closed
        else HalfOpen
  {
    RunOneMore(c, es, e);
    CountersAre(c, es);
    OpenKnowsLatestFailure(c, es);
  }

  /** What Allow answers after any history. */
  lemma AllowedIff(c: Config, es: seq<Event>, now: int)
    requires Valid(c)
    ensures Allows(c, Run(c, es), now) <==> match Run(c, es).state
      case Closed => true
      case Open => now > LatestFailure(es) + c.timeout
      case HalfOpen => Probes(c, es) < c.halfOpenMax
  {
    CountersAre(c, es);
    OpenKnowsLatestFailure(c, es);
  }

  // ---------- Refusing ----------

  /** Nothing in `es` asks later than `until`, or fails before `from`. */
  predicate Between(es: seq<Event>, from: int, until: int) {
    forall i :: 0 <= i < |es| ==> (es[i].Ask? ==> es[i].now <= until) && (es[i].Fail? ==> from <= es[i].now)
  }

  /**
   A failure of a breaker that is not closed, a failed probe above all, opens it: whatever happens
   until the timeout has passed, it stays open and lets no call through.
   */
  lemma {:induction false} RefusesUntilTimeout(c: Config, es: seq<Event>, t: int, more: seq<Event>)
    requires Valid(c) && !Run(c, es).state.Closed? && Between(more, t, t + c.timeout)
    ensures Run(c, es + [Fail(t)] + more).state.Open? && LatestFailure(es + [Fail(t)] + more) >= t
    ensures forall now :: now <= t + c.timeout ==> !Allows(c, Run(c, es + [Fail(t)] + more), now)
    decreases |more|
  {
    var failed := es + [Fail(t)];
    if more == [] {
      assert failed + more == failed;
      StateIs(c, es, Fail(t));
    } else {
      var n := |more| - 1;
      RefusesUntilTimeout(c, es, t, more[..n]);
      StateIs(c, failed + more[..n], more[n]);
      assert failed + more == failed + more[..n] + [more[n]];
    }
    forall now | now <= t + c.timeout
      ensures !Allows(c, Run(c, failed + more), now)
    {
      AllowedIff(c, failed + more, now);
    }
  }

  /** The failure that trips a closed breaker does the same. */
  lemma TripsAtThreshold(c: Config, es: seq<Event>, t: int, now: int)
    requires Valid(c) && Run(c, es).state.Closed?
    ensures var next := Run(c, es + [Fail(t)]);
      if ClosedFailuresInARow(c, es) + 1 >= c.failureThreshold
      then next.state.Open? && (Allows(c, next, now) <==> now > t + c.timeout)
      else next.state.Closed? && Allows(c, next, now)
  {
    StateIs(c, es, Fail(t));
    AllowedIff(c, es + [Fail(t)], now);
  }

  // ---------- After recovery ----------

  /**
   Closing does not forget the failures that opened the breaker: whatever the threshold, the first
   failure after it opens it again, unless a success comes first.
   */
  lemma OneFailureAfterRecovery(c: Config, es: seq<Event>, t: int)
    requires Valid(c) && !Run(c, es).state.Closed? && Run(c, es + [Succeed]).state.Closed?
    ensures Run(c, es + [Succeed] + [Fail(t)]).state.Open?
    ensures c.failureThreshold > 1 ==> Run(c, es + [Succeed] + [Succeed] + [Fail(t)]).state.Closed?
  {
    RunBounds(c, es);
    RunOneMore(c, es, Succeed);
    RunOneMore(c, es + [Succeed], Fail(t));
    RunOneMore(c, es + [Succeed], Succeed);
    RunOneMore(c, es + [Succeed] + [Succeed], Fail(t));
  }

  /**
   The successes that close the breaker need not come in a row: a failed probe takes none of those
   before it back.
   */
  lemma FailedProbeKeepsCount(c: Config, es: seq<Event>, t: int)
    requires Valid(c) && Run(c, es).state.HalfOpen?
    ensures var reopened := es + [Fail(t)] + [Ask(t + c.timeout + 1)];
      && Probes(c, reopened) == Probes(c, es) && Run(c, reopened).state.HalfOpen?
      && (Probes(c, es) + 1 == c.successThreshold ==> Run(c, reopened + [Succeed]).state.Closed?)
  {
    var failed, asked := es + [Fail(t)], es + [Fail(t)] + [Ask(t + c.timeout + 1)];
    assert failed[..|es|] == es && asked[..|failed|] == failed;
    StateIs(c, es, Fail(t));
    StateIs(c, failed, Ask(t + c.timeout + 1));
    StateIs(c, asked, Succeed);
  }

  // ---------- Calls of Do ----------

  /** The events of calls of Do: a call that is let through reports how it went. */
  function EventsOf(c: Config, es: seq<Event>, ds: seq<Call>): seq<Event>
    decreases |ds|
  {
    if ds == [] then es
    else
      var asked := es + [Ask(ds[0].start)];
      EventsOf(c,
               if !Allows(c, Run(c, es), ds[0].start) then asked
               else asked + [if ds[0].ok then Succeed else Fail(ds[0].end)],
               ds[1..])
  }

  /** Whatever is said about histories holds for Do: its calls are such histories. */
  lemma {:induction false} CallsAreEvents(c: Config, es: seq<Event>, ds: seq<Call>)
    ensures RunCalls(c, Run(c, es), ds) == Run(c, EventsOf(c, es, ds))
    decreases |ds|
  {
    if ds != [] {
      var d, asked := ds[0], es + [Ask(ds[0].start)];
      RunOneMore(c, es, Ask(d.start));
      RunOneMore(c, asked, if d.ok then Succeed else Fail(d.end));
      CallsAreEvents(c, if !Allows(c, Run(c, es), d.start) then asked
                        else asked + [if d.ok then Succeed else Fail(d.end)], ds[1..]);
    }
  }

  /** New and DefaultConfig agree on the defaults. */
  lemma DefaultsAgree(c: Config)
    ensures Normalize(c) == Config(
      if c.failureThreshold > 0 then c.failureThreshold else DEFAULT_CONFIG.failureThreshold,
      if c.successThreshold > 0 then c.successThreshold else DEFAULT_CONFIG.successThreshold,
      if c.timeout > 0 then c.timeout else DEFAULT_CONFIG.timeout,
      if c.halfOpenMax > 0 then c.halfOpenMax else DEFAULT_CONFIG.halfOpenMax)
  {
  }
}
