/** The circuit breaker. */
module CircuitBreaker {
  // A value model of one breaker with its step functions, the class that updates the fields in place,
  // and the properties of every sequential run.
  //
  // Times are integers. A call never sees a time earlier than the calls before it, but no lemma
  // below needs that: each one names the times it compares.

  datatype State = Closed | Open | HalfOpen

  datatype Config = Config(failureThreshold: int, successThreshold: int, timeout: int, halfOpenMax: int)

  /** The four fields that the methods of a breaker update. */
  datatype Status = Status(state: State, failures: int, successes: int, lastFailure: int)

  /** What can happen to a breaker: a call of Allow, RecordSuccess or RecordFailure. */
  datatype Event = Ask(now: int) | Succeed | Fail(now: int)

  /** A call of Do: the time Allow sees, whether the wrapped function succeeds, and when it ends. */
  datatype Call = Call(start: int, ok: bool, end: int)

  const SECOND := 1_000_000_000

  const DEFAULT_CONFIG := Config(5, 3, 30 * SECOND, 1)

  const INITIAL := Status(Closed, 0, 0, 0)

  /** New replaces every value that is not positive by its default. */
  function Normalize(c: Config): (r: Config)
    ensures Valid(r)
    ensures Valid(c) ==> r == c
  {
    Config(
      if c.failureThreshold <= 0 then 5 else c.failureThreshold,
      if c.successThreshold <= 0 then 3 else c.successThreshold,
      if c.timeout <= 0 then 30 * SECOND else c.timeout,
      if c.halfOpenMax <= 0 then 1 else c.halfOpenMax)
  }

  /** The configurations that a breaker can have. */
  predicate Valid(c: Config) {
    0 < c.failureThreshold && 0 < c.successThreshold && 0 < c.timeout && 0 < c.halfOpenMax
  }

  // ---------- The steps ----------

  predicate Allows(c: Config, s: Status, now: int) {
    match s.state
    case Closed => true
    case Open => now - s.lastFailure > c.timeout
    case HalfOpen => s.successes < c.halfOpenMax
  }

  function AfterAsk(c: Config, s: Status, now: int): Status {
    if s.state.Open? && Allows(c, s, now) then s.(state := HalfOpen) else s
  }

  function AfterSuccess(c: Config, s: Status): Status {
    match s.state
    case Closed => s.(failures := 0)
    case HalfOpen =>
      if s.successes + 1 >= c.successThreshold then s.(successes := 0, state := Closed)
      else s.(successes := s.successes + 1)
    case Open => s
  }

  function AfterFailure(c: Config, s: Status, now: int): Status {
    match s.state
    case Closed =>
      var failures := s.failures + 1;
      if failures >= c.failureThreshold then Status(Open, failures, s.successes, now)
      else s.(failures := failures)
    case HalfOpen => s.(state := Open, lastFailure := now)
    case Open => s.(lastFailure := now)
  }

  function Step(c: Config, s: Status, e: Event): Status {
    match e
    case Ask(now) => AfterAsk(c, s, now)
    case Succeed => AfterSuccess(c, s)
    case Fail(now) => AfterFailure(c, s, now)
  }

  function AfterCall(c: Config, s: Status, d: Call): Status {
    if !Allows(c, s, d.start) then s
    else
      var asked := AfterAsk(c, s, d.start);
      if d.ok then AfterSuccess(c, asked) else AfterFailure(c, asked, d.end)
  }

  /** The status after the events `es`, the latest one last. */
  function Run(c: Config, es: seq<Event>): Status {
    if es == [] then INITIAL else Step(c, Run(c, es[..|es| - 1]), es[|es| - 1])
  }

  /** The status after the calls `ds` of Do, from `s`, the earliest one first. */
  function RunCalls(c: Config, s: Status, ds: seq<Call>): Status
    decreases |ds|
  {
    if ds == [] then s else RunCalls(c, AfterCall(c, s, ds[0]), ds[1..])
  }

  // ---------- The breaker object ----------

  class Breaker {
    const config: Config
    var state: State
    var failures: int
    var successes: int
    var lastFailureTime: int

    function View(): Status
      reads this
    {
      Status(state, failures, successes, lastFailureTime)
    }

    constructor (c: Config)
      ensures config == Normalize(c)
      ensures View() == INITIAL
    {
      config := Normalize(c);
      state, failures, successes, lastFailureTime := Closed, 0, 0, 0;
    }

    /** Allow: a nil error is `true`, ErrCircuitOpen is `false`. */
    method Allow(now: int) returns (ok: bool)
      modifies this
      ensures ok == Allows(config, old(View()), now)
      ensures View() == AfterAsk(config, old(View()), now)
    {
      match state {
        case Closed =>
          return true;
        case Open =>
          if now - lastFailureTime > config.timeout {
            state := HalfOpen;
            return true;
          }
          return false;
        case HalfOpen =>
          return successes < config.halfOpenMax;
      }
    }

    method RecordSuccess()
      modifies this
      ensures View() == AfterSuccess(config, old(View()))
    {
      match state {
        case Closed =>
          failures := 0;
        case HalfOpen =>
          successes := successes + 1;
          if successes >= config.successThreshold {
            successes := 0;
            state := Closed;
          }
        case Open =>
      }
    }

    method RecordFailure(now: int)
      modifies this
      ensures View() == AfterFailure(config, old(View()), now)
    {
      match state {
        case Closed =>
          failures := failures + 1;
          if failures >= config.failureThreshold {
            lastFailureTime := now;
            state := Open;
          }
        case HalfOpen =>
          lastFailureTime := now;
          state := Open;
        case Open =>
          lastFailureTime := now;
      }
    }

    /** Do, with the outcome of the wrapped function given; false is ErrCircuitOpen. */
    method Do(d: Call) returns (allowed: bool)
      modifies this
      ensures allowed == Allows(config, old(View()), d.start)
      ensures View() == AfterCall(config, old(View()), d)
    {
      allowed := Allow(d.start);
      if allowed {
        if d.ok {
          RecordSuccess();
        } else {
          RecordFailure(d.end);
        }
      }
    }
  }

  // ---------- Every run ----------

  /** Event i is a success recorded while the breaker is closed: the only thing that clears `failures`. */
  predicate ClearsFailures(c: Config, es: seq<Event>, i: int) {
    0 <= i < |es| && es[i].Succeed? && Run(c, es[..i]).state.Closed?
  }

  /** How many failures were recorded while the breaker was closed, among the events from `from` on. */
  function ClosedFailures(c: Config, es: seq<Event>, from: nat): nat
    decreases |es|
  {
    if |es| <= from then 0
    else
      var before := es[..|es| - 1];
      ClosedFailures(c, before, from) +
      (if es[|es| - 1].Fail? && Run(c, before).state.Closed? then 1 else 0)
  }

  /** The time of the latest failure, in whatever state it was recorded. */
  function LatestFailure(es: seq<Event>): (t: int) {
    if es == [] then 0
    else if es[|es| - 1].Fail? then es[|es| - 1].now
    else LatestFailure(es[..|es| - 1])
  }

  /** The bounds that hold after every run. */
  predicate Bounds(c: Config, s: Status) {
    && 0 <= s.failures
    && 0 <= s.successes < c.successThreshold
    && (!s.state.Closed? ==> c.failureThreshold <= s.failures)
  }

  lemma {:induction false} RunBounds(c: Config, es: seq<Event>)
    requires Valid(c)
    ensures Bounds(c, Run(c, es))
  {
    if es != [] {
      RunBounds(c, es[..|es| - 1]);
    }
  }

  /**
   `failures` counts the failures recorded while closed since the last success recorded while
   closed. Open and half-open episodes in between do not clear it: `from` may lie far before
   the last time the breaker closed.
   */
  lemma {:induction false} FailuresCountHistory(c: Config, es: seq<Event>) returns (from: nat)
    ensures from <= |es|
    ensures from == 0 || ClearsFailures(c, es, from - 1)
    ensures forall i :: from <= i < |es| ==> !ClearsFailures(c, es, i)
    ensures Run(c, es).failures == ClosedFailures(c, es, from)
  {
    if es == [] {
      from := 0;
    } else {
      var n := |es| - 1;
      var before := es[..n];
      from := FailuresCountHistory(c, before);
      assert forall i :: 0 <= i <= n ==> before[..i] == es[..i];
      if ClearsFailures(c, es, n) {
        from := n + 1;
      } else {
        assert from == 0 || ClearsFailures(c, es, from - 1);
        forall i | from <= i < |es|
          ensures !ClearsFailures(c, es, i)
        {
          if i < n {
            assert !ClearsFailures(c, before, i);
          }
        }
      }
    }
  }

  /** While open, the time that Allow compares with is that of the latest failure of the history. */
  lemma {:induction false} OpenKnowsLatestFailure(c: Config, es: seq<Event>)
    ensures Run(c, es).state.Open? ==> Run(c, es).lastFailure == LatestFailure(es)
  {
    if es != [] {
      OpenKnowsLatestFailure(c, es[..|es| - 1]);
    }
  }

  /** From Open, Allow answers true exactly when the latest failure is more than the timeout ago. */
  lemma OpenUntilTimeout(c: Config, es: seq<Event>, now: int)
    ensures Run(c, es).state.Open? ==> (Allows(c, Run(c, es), now) <==> now - LatestFailure(es) > c.timeout)
  {
    OpenKnowsLatestFailure(c, es);
  }

  /** Without a call of Allow, an open breaker stays open whatever is recorded. */
  lemma {:induction false} OpenWithoutAllow(c: Config, es: seq<Event>, more: seq<Event>)
    requires Run(c, es).state.Open?
    requires forall i :: 0 <= i < |more| ==> !more[i].Ask?
    ensures Run(c, es + more).state.Open?
  {
    if more == [] {
      assert es + more == es;
    } else {
      var n := |more| - 1;
      OpenWithoutAllow(c, es, more[..n]);
      assert (es + more)[..|es + more| - 1] == es + more[..n];
    }
  }

  // ---------- Progress under Do ----------

  /** Every call of `ds` runs its function and the function succeeds. */
  predicate AllSucceed(ds: seq<Call>) {
    forall i :: 0 <= i < |ds| ==> ds[i].ok
  }

  /** Half open, with room for every probe it needs: each success counts, the last one closes. */
  lemma {:induction false} HalfOpenCloses(c: Config, s: Status, ds: seq<Call>)
    requires Valid(c) && Bounds(c, s) && c.successThreshold <= c.halfOpenMax
    requires s.state.HalfOpen? && AllSucceed(ds)
    requires |ds| <= c.successThreshold - s.successes
    ensures RunCalls(c, s, ds) ==
            if |ds| < c.successThreshold - s.successes then s.(successes := s.successes + |ds|)
            else s.(state := Closed, successes := 0)
    decreases |ds|
  {
    if ds != [] {
      var next := AfterCall(c, s, ds[0]);
      if |ds| == 1 {
        assert ds[1..] == [];
      } else {
        assert next == s.(successes := s.successes + 1);
        HalfOpenCloses(c, next, ds[1..]);
      }
    }
  }

  /**
   With enough room for probes, an open breaker whose timeout has passed closes after exactly
   `successThreshold - successes` successful calls of Do, and not before.
   */
  lemma OpenCloses(c: Config, s: Status, ds: seq<Call>)
    requires Valid(c) && Bounds(c, s) && c.successThreshold <= c.halfOpenMax
    requires s.state.Open? && AllSucceed(ds)
    requires ds != [] && ds[0].start - s.lastFailure > c.timeout
    requires |ds| <= c.successThreshold - s.successes
    ensures RunCalls(c, s, ds).state == if |ds| == c.successThreshold - s.successes then Closed else HalfOpen
    ensures RunCalls(c, s, ds).successes == if |ds| == c.successThreshold - s.successes then 0 else s.successes + |ds|
  {
    assert AfterCall(c, s, ds[0]) == AfterCall(c, s.(state := HalfOpen), ds[0]);
    HalfOpenCloses(c, s.(state := HalfOpen), ds);
  }

  /** Too few probes: once half open with all of them used, no call of Do changes anything again. */
  lemma {:induction false} HalfOpenStuck(c: Config, s: Status, ds: seq<Call>)
    requires s.state.HalfOpen? && c.halfOpenMax <= s.successes
    ensures RunCalls(c, s, ds) == s
    decreases |ds|
  {
    if ds != [] {
      HalfOpenStuck(c, s, ds[1..]);
    }
  }

  /** With too few probes, a breaker driven only by Do keeps fewer successes than it has probes while open. */
  predicate Starved(c: Config, s: Status) {
    && 0 <= s.successes
    && (s.state.HalfOpen? ==> s.successes <= c.halfOpenMax)
    && (!s.state.HalfOpen? ==> s.successes < c.halfOpenMax)
  }

  lemma {:induction false} StarvedNeverCloses(c: Config, s: Status, ds: seq<Call>)
    requires Valid(c) && c.halfOpenMax < c.successThreshold && Starved(c, s)
    ensures Starved(c, RunCalls(c, s, ds))
    ensures !s.state.Closed? ==> !RunCalls(c, s, ds).state.Closed?
    decreases |ds|
  {
    if ds != [] {
      StarvedNeverCloses(c, AfterCall(c, s, ds[0]), ds[1..]);
    }
  }

  lemma {:induction false} RunCallsConcat(c: Config, s: Status, ds: seq<Call>, more: seq<Call>)
    ensures RunCalls(c, s, ds + more) == RunCalls(c, RunCalls(c, s, ds), more)
    decreases |ds|
  {
    if ds == [] {
      assert ds + more == more;
    } else {
      assert (ds + more)[1..] == ds[1..] + more;
      RunCallsConcat(c, AfterCall(c, s, ds[0]), ds[1..], more);
    }
  }

  /** A new breaker used through Do is tripped by `ds` and closed again by `more`. */
  predicate Recovers(c: Config, ds: seq<Call>, more: seq<Call>) {
    && !RunCalls(c, INITIAL, ds).state.Closed?
    && RunCalls(c, INITIAL, ds + more).state.Closed?
  }

  lemma {:induction false} TripsFrom(c: Config, s: Status, ds: seq<Call>)
    requires Valid(c) && s.state.Closed? && 0 <= s.failures < c.failureThreshold
    requires |ds| == c.failureThreshold - s.failures
    requires forall i :: 0 <= i < |ds| ==> ds[i] == Call(0, false, 0)
    ensures RunCalls(c, s, ds) == Status(Open, c.failureThreshold, s.successes, 0)
    decreases |ds|
  {
    var next := AfterCall(c, s, ds[0]);
    if |ds| == 1 {
      assert ds[1..] == [];
    } else {
      TripsFrom(c, next, ds[1..]);
    }
  }

  /** Some use of Do alone trips a new breaker and closes it again iff it may probe often enough. */
  lemma RecoversIff(c: Config)
    requires Valid(c)
    ensures (exists ds, more :: Recovers(c, ds, more)) <==> c.successThreshold <= c.halfOpenMax
  {
    if c.successThreshold <= c.halfOpenMax {
      var ds := seq(c.failureThreshold, _ => Call(0, false, 0));
      var more := seq(c.successThreshold, _ => Call(c.timeout + 1, true, c.timeout + 1));
      TripsFrom(c, INITIAL, ds);
      OpenCloses(c, RunCalls(c, INITIAL, ds), more);
      RunCallsConcat(c, INITIAL, ds, more);
      assert Recovers(c, ds, more);
    } else {
      forall ds, more
        ensures !Recovers(c, ds, more)
      {
        StarvedNeverCloses(c, INITIAL, ds);
        RunCallsConcat(c, INITIAL, ds, more);
        if !RunCalls(c, INITIAL, ds).state.Closed? {
          StarvedNeverCloses(c, RunCalls(c, INITIAL, ds), more);
        }
      }
    }
  }

  /** The default configuration allows one probe and asks for three successes: it never recovers under Do. */
  lemma DefaultNeverRecovers(ds: seq<Call>, more: seq<Call>)
    ensures !Recovers(DEFAULT_CONFIG, ds, more)
  {
    RecoversIff(DEFAULT_CONFIG);
  }
}
