/**
 The tracker of failed logins: a record per address, locked for a while after too many failures, a
 growing delay before that, and a periodic cleanup.

 Each call happens at one instant, `now`, in nanoseconds. The delay is computed in 64-bit integers.
 */
module Lockout {
  import opened Options

  datatype Address = Address(text: string)

  /** `lockedUntil` is None where the program has the zero time. */
  datatype Record = Record(attempts: int, firstAttempt: int, lastAttempt: int, lockedUntil: Option<int>)

  datatype Config = Config(maxAttempts: int, lockout: int, cleanupInterval: int)

  const SECOND := 1_000_000_000
  const MINUTE := 60 * SECOND
  const DAY := 24 * 60 * MINUTE

  type Records = map<Address, Record>

  function OrDefault(n: int, default_: int): int {
    if n <= 0 then default_ else n
  }

  /** NewBruteForceProtector */
  function Configured(maxAttempts: int, lockoutMinutes: int, cleanupMinutes: int): Config {
    Config(OrDefault(maxAttempts, 10), OrDefault(lockoutMinutes, 15) * MINUTE, OrDefault(cleanupMinutes, 5) * MINUTE)
  }

  // ---------- The delay ----------

  function Pow2(k: nat): (p: nat)
    ensures p > 0
  {
    if k == 0 then 1 else 2 * Pow2(k - 1)
  }

  const TWO64 := 0x1_0000_0000_0000_0000

  /** The value of `x` in 64 bits, two's complement. */
  function Wrap(x: int): int {
    var low := x % TWO64;
    if low < TWO64 / 2 then low else low - TWO64
  }

  /** The delay after `attempts` failures. A shift by 64 or more gives 0, as the lowest 64 bits are. */
  function Delay(attempts: int): int
    requires attempts >= 1
  {
    var delay := Wrap(Wrap(Pow2(attempts - 1)) * SECOND);
    if delay > 16 * SECOND then 16 * SECOND else delay
  }

  // ---------- Steps ----------

  predicate Locked(r: Record, now: int) {
    r.lockedUntil.Some? && r.lockedUntil.value > now
  }

  predicate IsLocked(m: Records, ip: Address, now: int) {
    ip in m && Locked(m[ip], now)
  }

  /** The record that RecordFailure starts from. */
  function Found(m: Records, ip: Address, now: int): Record {
    if ip in m then m[ip] else Record(0, now, now, None)
  }

  /** A failure counts unless the address is locked. */
  function Counted(c: Config, r: Record, now: int): Record {
    if Locked(r, now) then r
    else r.(attempts := r.attempts + 1, lastAttempt := now,
            lockedUntil := if r.attempts + 1 >= c.maxAttempts then Some(now + c.lockout) else r.lockedUntil)
  }

  function AfterFailure(c: Config, m: Records, ip: Address, now: int): Records {
    m[ip := Counted(c, Found(m, ip, now), now)]
  }

  datatype Answer = Answer(locked: bool, delay: int)

  /** What RecordFailure answers. */
  function FailureAnswer(c: Config, m: Records, ip: Address, now: int): Answer
    requires ip in m ==> m[ip].attempts >= 0
  {
    var r := Found(m, ip, now);
    if Locked(r, now) then Answer(true, r.lockedUntil.value - now)
    else if r.attempts + 1 >= c.maxAttempts then Answer(true, c.lockout)
    else Answer(false, Delay(r.attempts + 1))
  }

  /** cleanup drops the record. */
  predicate Stale(r: Record, now: int) {
    match r.lockedUntil
    case None => now - r.lastAttempt > DAY
    case Some(until) => now > until
  }

  function AfterCleanup(m: Records, now: int): Records {
    map ip | ip in m && !Stale(m[ip], now) :: m[ip]
  }

  /**
   A record is locked out, until `lockout` after its latest counted failure, exactly when there were
   `maxAttempts` of them. Each one beyond that came at least `lockout` after the one before.
   */
  predicate Sound(c: Config, r: Record, now: int) {
    && r.attempts >= 1
    && r.firstAttempt <= r.lastAttempt <= now
    && r.lockedUntil == (if r.attempts >= c.maxAttempts then Some(r.lastAttempt + c.lockout) else None)
    && (r.attempts >= c.maxAttempts ==> (r.attempts - c.maxAttempts) * c.lockout <= r.lastAttempt - r.firstAttempt)
  }

  ghost predicate AllSound(c: Config, m: Records, now: int) {
    forall ip :: ip in m ==> Sound(c, m[ip], now)
  }

  // ---------- The protector object ----------

  class BruteForceProtector {
    const config: Config
    var failures: Records

    /** What holds between calls, the latest of them at `now`. */
    ghost predicate Valid(now: int)
      reads this
    {
      config.maxAttempts >= 1 && config.lockout > 0 && AllSound(config, failures, now)
    }

    constructor (maxAttempts: int, lockoutMinutes: int, cleanupMinutes: int, ghost now: int)
      ensures config == Configured(maxAttempts, lockoutMinutes, cleanupMinutes)
      ensures failures == map[] && Valid(now)
    {
      config := Configured(maxAttempts, lockoutMinutes, cleanupMinutes);
      failures := map[];
    }

    method IsLockedAt(ip: Address, now: int) returns (locked: bool)
      ensures locked == IsLocked(failures, ip, now)
    {
      if ip !in failures {
        return false;
      }
      var record := failures[ip];
      if record.lockedUntil.Some? && record.lockedUntil.value > now {
        return true;
      }
      return false;
    }

    /** The time left is positive exactly for a locked address. */
    method GetLockoutRemaining(ip: Address, now: int) returns (remaining: int)
      ensures remaining >= 0 && (remaining > 0 <==> IsLocked(failures, ip, now))
      ensures remaining > 0 ==> IsLocked(failures, ip, now + remaining - 1) && !IsLocked(failures, ip, now + remaining)
    {
      if ip !in failures || failures[ip].lockedUntil.None? {
        return 0;
      }
      remaining := failures[ip].lockedUntil.value - now;
      if remaining < 0 {
        remaining := 0;
      }
    }

    method GetAttempts(ip: Address) returns (attempts: int)
      ensures attempts == if ip in failures then failures[ip].attempts else 0
    {
      return if ip in failures then failures[ip].attempts else 0;
    }

    method RecordFailure(ip: Address, now: int, ghost latest: int) returns (locked: bool, delay: int)
      requires Valid(latest) && latest <= now
      modifies this`failures
      ensures Valid(now) && failures == AfterFailure(config, old(failures), ip, now)
      ensures Answer(locked, delay) == FailureAnswer(config, old(failures), ip, now)
      ensures locked == IsLocked(failures, ip, now)
    {
      CountKeeps(config, failures, ip, latest, now);
      if ip !in failures {
        failures := failures[ip := Record(0, now, now, None)];
      }
      var record := failures[ip];
      if record.lockedUntil.Some? && record.lockedUntil.value > now {
        assert failures == AfterFailure(config, old(failures), ip, now);
        return true, record.lockedUntil.value - now;
      }
      record := record.(attempts := record.attempts + 1, lastAttempt := now);
      if record.attempts >= config.maxAttempts {
        record := record.(lockedUntil := Some(now + config.lockout));
        failures := failures[ip := record];
        return true, config.lockout;
      }
      failures := failures[ip := record];
      delay := Wrap(Wrap(Pow2(record.attempts - 1)) * SECOND);
      if delay > 16 * SECOND {
        delay := 16 * SECOND;
      }
      return false, delay;
    }

    method RecordSuccess(ip: Address)
      modifies this`failures
      ensures failures == old(failures) - {ip}
      ensures forall t :: old(Valid(t)) ==> Valid(t)
    {
      failures := failures - {ip};
    }

    method Cleanup(now: int)
      modifies this`failures
      ensures failures == AfterCleanup(old(failures), now)
      ensures forall t :: old(Valid(t)) ==> Valid(t)
    {
      var todo := failures.Keys;
      while todo != {}
        invariant todo <= failures.Keys <= old(failures).Keys
        invariant forall ip :: ip in failures ==> failures[ip] == old(failures)[ip]
        invariant forall ip :: ip in old(failures) && ip !in todo ==>
                    (ip in failures <==> !Stale(old(failures)[ip], now))
        decreases |todo|
      {
        var ip :| ip in todo;
        todo := todo - {ip};
        var record := failures[ip];
        if record.lockedUntil.None? && now - record.lastAttempt > DAY {
          failures := failures - {ip};
          continue;
        }
        if record.lockedUntil.Some? && now > record.lockedUntil.value {
          failures := failures - {ip};
        }
      }
    }
  }

  lemma CountKeeps(c: Config, m: Records, ip: Address, latest: int, now: int)
    requires c.maxAttempts >= 1 && c.lockout > 0 && AllSound(c, m, latest) && latest <= now
    ensures AllSound(c, AfterFailure(c, m, ip, now), now)
  {
    if ip in m {
      CountedSound(c, m[ip], latest, now);
    }
    forall x | x in m
      ensures Sound(c, m[x], now)
    {
      assert Sound(c, m[x], latest);
    }
  }

  lemma CountedSound(c: Config, r: Record, latest: int, now: int)
    requires c.maxAttempts >= 1 && c.lockout > 0 && Sound(c, r, latest) && latest <= now
    ensures Sound(c, Counted(c, r, now), now)
  {
    if r.attempts >= c.maxAttempts && !Locked(r, now) {
      assert (r.attempts + 1 - c.maxAttempts) * c.lockout == (r.attempts - c.maxAttempts) * c.lockout + c.lockout;
    }
  }

  // ---------- Runs ----------

  datatype Event = Failure(ip: Address, now: int) | Success(ip: Address, now: int) | Cleanup(now: int)

  function Step(c: Config, m: Records, e: Event): Records {
    match e
    case Failure(ip, now) => AfterFailure(c, m, ip, now)
    case Success(ip, _) => m - {ip}
    case Cleanup(now) => AfterCleanup(m, now)
  }

  function Run(c: Config, h: seq<Event>): Records {
    if h == [] then map[] else Step(c, Run(c, h[..|h| - 1]), h[|h| - 1])
  }

  predicate Ordered(h: seq<Event>) {
    forall i, j :: 0 <= i < j < |h| ==> h[i].now <= h[j].now
  }

  function Now(h: seq<Event>): int {
    if h == [] then 0 else h[|h| - 1].now
  }

  /** In every run, an address is locked out iff it reached `maxAttempts`, and then from its latest failure. */
  lemma {:induction false} AlwaysSound(c: Config, h: seq<Event>)
    requires c.maxAttempts >= 1 && c.lockout > 0 && Ordered(h)
    ensures AllSound(c, Run(c, h), Now(h))
    decreases |h|
  {
    if h != [] {
      var before := h[..|h| - 1];
      AlwaysSound(c, before);
      if h[|h| - 1].Failure? && before != [] {
        CountKeeps(c, Run(c, before), h[|h| - 1].ip, Now(before), Now(h));
      }
    }
  }

  // ---------- The delay, exactly ----------

  /** What the delay is meant to be. */
  function Doubling(attempts: int): int
    requires attempts >= 1
  {
    (if attempts >= 5 then 16 else Pow2(attempts - 1)) * SECOND
  }

  lemma {:induction false} Pow2Add(a: nat, b: nat)
    ensures Pow2(a + b) == Pow2(a) * Pow2(b)
  {
    if a > 0 {
      Pow2Add(a - 1, b);
    }
  }

  lemma Pow2Values()
    ensures Pow2(0) == 1 && Pow2(1) == 2 && Pow2(2) == 4 && Pow2(3) == 8 && Pow2(4) == 16
    ensures Pow2(33) == 0x2_0000_0000 && Pow2(34) == 0x4_0000_0000 && Pow2(55) == 0x80_0000_0000_0000
  {
    assert Pow2(11) == 2048;
    Pow2Add(11, 11);
    Pow2Add(22, 11);
    Pow2Add(33, 22);
    assert Pow2(34) == 2 * Pow2(33);
  }

  lemma {:induction false} Pow2Monotone(a: nat, b: nat)
    requires a <= b
    ensures Pow2(a) <= Pow2(b)
    decreases b
  {
    if a < b {
      Pow2Monotone(a, b - 1);
    }
  }

  lemma DelayExact(attempts: int)
    requires 1 <= attempts <= 34
    ensures Delay(attempts) == Doubling(attempts)
  {
    var p := Pow2(attempts - 1);
    assert p <= 0x2_0000_0000 && (attempts >= 5 ==> p >= 16) && (attempts < 5 ==> p <= 8) by {
      Pow2Values();
      Pow2Monotone(attempts - 1, 33);
      if attempts >= 5 {
        Pow2Monotone(4, attempts - 1);
      } else {
        Pow2Monotone(attempts - 1, 3);
      }
    }
    NoWrap(p);
    NoWrap(p * SECOND);
  }

  lemma NoWrap(x: int)
    requires 0 <= x < TWO64 / 2
    ensures Wrap(x) == x
  {
  }

  /** The 35th delay is negative, and from the 56th on there is none. */
  lemma DelayWraps(attempts: int)
    requires attempts == 35 || attempts >= 56
    ensures if attempts == 35 then Delay(attempts) < 0 else Delay(attempts) == 0
  {
    Pow2Values();
    if attempts >= 56 {
      var k := attempts - 56;
      Pow2Add(k, 55);
      var q := WrapParts(Pow2(attempts - 1));
      ShiftedOut(Pow2(k), q, Wrap(Pow2(attempts - 1)));
    }
  }

  /** The lowest 64 bits of a multiple of 2^64. */
  lemma WrapMultiple(n: int)
    ensures Wrap(n * TWO64) == 0
  {
    assert (n * TWO64) % TWO64 == 0;
  }

  lemma ShiftedOut(p: int, q: int, low: int)
    requires low == p * 0x80_0000_0000_0000 - q * TWO64
    ensures Wrap(low * SECOND) == 0
  {
    assert low * SECOND == (p * 1953125 - q * SECOND) * TWO64;
    WrapMultiple(p * 1953125 - q * SECOND);
  }

  lemma WrapParts(x: int) returns (q: int)
    ensures x == Wrap(x) + q * TWO64
  {
    q := if x % TWO64 < TWO64 / 2 then x / TWO64 else x / TWO64 + 1;
  }

  /** Every delay short of a lockout is the intended one iff the limit is at most 35 failures. */
  lemma DelaysExactIff(maxAttempts: int)
    ensures (forall a :: 1 <= a < maxAttempts ==> Delay(a) == Doubling(a)) <==> maxAttempts <= 35
  {
    if maxAttempts <= 35 {
      forall a | 1 <= a < maxAttempts ensures Delay(a) == Doubling(a) {
        DelayExact(a);
      }
    } else {
      DelayWraps(35);
      assert Delay(35) != Doubling(35);
    }
  }

  // ---------- Guesses ----------

  /** The failures of an address that count: those while it is not locked. */
  function Guesses(c: Config, h: seq<Event>, ip: Address): nat {
    if h == [] then 0
    else
      var e := h[|h| - 1];
      Guesses(c, h[..|h| - 1], ip) +
      if e.Failure? && e.ip == ip && !IsLocked(Run(c, h[..|h| - 1]), ip, e.now) then 1 else 0
  }

  predicate NeverSucceeds(h: seq<Event>, ip: Address) {
    forall i :: 0 <= i < |h| && h[i].Success? ==> h[i].ip != ip
  }

  predicate NeverCleaned(h: seq<Event>) {
    forall i :: 0 <= i < |h| ==> !h[i].Cleanup?
  }

  predicate Since(h: seq<Event>, start: int) {
    forall i :: 0 <= i < |h| ==> start <= h[i].now
  }

  lemma {:induction false} AttemptsAreGuesses(c: Config, h: seq<Event>, ip: Address, start: int)
    requires Ordered(h) && NeverSucceeds(h, ip) && NeverCleaned(h) && Since(h, start)
    ensures var m := Run(c, h);
      if ip in m then m[ip].attempts == Guesses(c, h, ip) && start <= m[ip].firstAttempt else Guesses(c, h, ip) == 0
    decreases |h|
  {
    if h != [] {
      AttemptsAreGuesses(c, h[..|h| - 1], ip, start);
    }
  }

  /** Without a success or a cleanup, an address has `maxAttempts` guesses, and one more per lockout. */
  lemma GuessesWithoutCleanup(c: Config, h: seq<Event>, ip: Address, start: int)
    requires c.maxAttempts >= 1 && c.lockout > 0 && Ordered(h) && Since(h, start)
    requires NeverSucceeds(h, ip) && NeverCleaned(h)
    ensures Guesses(c, h, ip) > c.maxAttempts ==> (Guesses(c, h, ip) - c.maxAttempts) * c.lockout <= Now(h) - start
  {
    AlwaysSound(c, h);
    AttemptsAreGuesses(c, h, ip, start);
  }

  /** How long a record lasts at least before cleanup drops it. */
  function Pause(c: Config): int {
    if c.lockout < DAY then c.lockout else DAY
  }

  /** The guesses so far, those of the current record apart, against the time they took. */
  predicate Budget(c: Config, m: Records, ip: Address, guesses: int, start: int, now: int) {
    if ip in m then
      guesses >= m[ip].attempts && (guesses - m[ip].attempts) * Pause(c) <= c.maxAttempts * (m[ip].firstAttempt - start)
    else guesses * Pause(c) <= c.maxAttempts * (now - start)
  }

  lemma TimesMonotone(a: int, b: int, n: int)
    requires a <= b && n >= 0
    ensures n * a <= n * b
  {
  }

  /** A record of `a` attempts, and the pause after it, take as long as `maxAttempts` guesses a pause allow. */
  lemma RecordCost(c: Config, r: Record, now: int)
    requires c.maxAttempts >= 1 && c.lockout > 0 && Sound(c, r, now)
    ensures r.attempts * Pause(c) <= c.maxAttempts * (r.lastAttempt - r.firstAttempt + Pause(c))
  {
    CostOf(r.attempts, c.maxAttempts, Pause(c), c.lockout, r.lastAttempt - r.firstAttempt);
  }

  lemma Distributes(a: int, b: int, n: int)
    ensures (a + b) * n == a * n + b * n
  {
  }

  lemma CostOf(attempts: int, limit: int, pause: int, lockout: int, span: int)
    requires limit >= 1 && 0 < pause <= lockout && 0 <= span
    requires attempts > limit ==> (attempts - limit) * lockout <= span
    ensures attempts * pause <= limit * (span + pause)
  {
    Distributes(span, pause, limit);
    TimesMonotone(1, limit, span);
    if attempts <= limit {
      TimesMonotone(attempts, limit, pause);
    } else {
      TimesMonotone(pause, lockout, attempts - limit);
      Distributes(attempts - limit, limit, pause);
    }
  }

  /** Dropping a stale record keeps within the budget. */
  lemma DropKeepsBudget(c: Config, m: Records, ip: Address, guesses: int, start: int, now: int)
    requires c.maxAttempts >= 1 && c.lockout > 0 && ip in m && Sound(c, m[ip], now) && Stale(m[ip], now)
    requires Budget(c, m, ip, guesses, start, now)
    ensures guesses * Pause(c) <= c.maxAttempts * (now - start)
  {
    var r, p := m[ip], Pause(c);
    RecordCost(c, r, now);
    assert now - r.lastAttempt >= p;
    TimesMonotone(r.lastAttempt - r.firstAttempt + p, now - r.firstAttempt, c.maxAttempts);
    assert guesses * p == (guesses - r.attempts) * p + r.attempts * p;
    assert c.maxAttempts * (now - start) ==
           c.maxAttempts * (now - r.firstAttempt) + c.maxAttempts * (r.firstAttempt - start);
  }

  lemma {:induction false} AlwaysInBudget(c: Config, h: seq<Event>, ip: Address, start: int)
    requires c.maxAttempts >= 1 && c.lockout > 0 && Ordered(h) && Since(h, start) && NeverSucceeds(h, ip) && h != []
    ensures Budget(c, Run(c, h), ip, Guesses(c, h, ip), start, Now(h))
    decreases |h|
  {
    var before, now := h[..|h| - 1], Now(h);
    var m := Run(c, before);
    if before == [] {
      assert now >= start;
      TimesMonotone(0, now - start, c.maxAttempts);
    } else {
      AlwaysInBudget(c, before, ip, start);
      AlwaysSound(c, before);
      TimesMonotone(Now(before) - start, now - start, c.maxAttempts);
      if h[|h| - 1].Cleanup? && ip in m && Stale(m[ip], now) {
        assert Sound(c, m[ip], now);
        DropKeepsBudget(c, m, ip, Guesses(c, before, ip), start, now);
      }
    }
  }

  /**
   Without a success, and whenever cleanup runs, an address has no more than `maxAttempts` guesses
   for each lockout period, or for each day if that is shorter.
   */
  lemma GuessesBounded(c: Config, h: seq<Event>, ip: Address, start: int)
    requires c.maxAttempts >= 1 && c.lockout > 0 && Ordered(h) && Since(h, start) && NeverSucceeds(h, ip) && h != []
    ensures Guesses(c, h, ip) * Pause(c) <= c.maxAttempts * (Now(h) - start + Pause(c))
  {
    AlwaysInBudget(c, h, ip, start);
    AlwaysSound(c, h);
    var m, g, p := Run(c, h), Guesses(c, h, ip), Pause(c);
    if ip in m {
      var r := m[ip];
      RecordCost(c, r, Now(h));
      TimesMonotone(r.lastAttempt - r.firstAttempt + p, Now(h) - r.firstAttempt + p, c.maxAttempts);
      assert g * p == (g - r.attempts) * p + r.attempts * p;
      assert c.maxAttempts * (Now(h) - start + p) ==
             c.maxAttempts * (Now(h) - r.firstAttempt + p) + c.maxAttempts * (r.firstAttempt - start);
    } else {
      TimesMonotone(Now(h) - start, Now(h) - start + p, c.maxAttempts);
    }
  }

  // ---------- What cleanup changes ----------

  /** Only the first delay is one second. */
  lemma LaterDelaysDiffer(attempts: int)
    requires attempts >= 2
    ensures Delay(attempts) != Delay(1) && Delay(1) == SECOND
  {
    assert Delay(1) == SECOND by { Pow2Values(); }
    assert SECOND == 1024 * 976562 + 512;
    var n := EvenMultiple(Pow2(attempts - 2));
  }

  /** In 64 bits an even number of seconds is a multiple of 1024 nanoseconds. */
  lemma EvenMultiple(p: int) returns (n: int)
    ensures Wrap(Wrap(2 * p) * SECOND) == 1024 * n
  {
    var q := WrapParts(2 * p);
    var half := p - q * 0x8000_0000_0000_0000;
    assert Wrap(2 * p) == 2 * half;
    var r := WrapParts(2 * half * SECOND);
    n := 1953125 * half - r * 0x40_0000_0000_0000;
  }

  /** Cleanup never changes whether an address is locked, then or later. */
  lemma CleanupKeepsLocks(m: Records, ip: Address, now: int, later: int)
    ensures now <= later ==> (IsLocked(AfterCleanup(m, now), ip, later) <==> IsLocked(m, ip, later))
  {
  }

  /** It changes the answer to a later failure exactly if it dropped the record, and one failure is allowed. */
  lemma CleanupChangesAnswer(c: Config, m: Records, ip: Address, now: int, later: int)
    requires c.maxAttempts >= 1 && Positive(m) && now <= later
    ensures FailureAnswer(c, AfterCleanup(m, now), ip, later) != FailureAnswer(c, m, ip, later)
       <==> ip in m && Stale(m[ip], now) && c.maxAttempts > 1
  {
    AnswersDifferIff(c, AfterCleanup(m, now), m, now, ip, later);
  }

  /** The same events without the cleanups. */
  function WithoutCleanups(h: seq<Event>): seq<Event> {
    if h == [] then []
    else WithoutCleanups(h[..|h| - 1]) + if h[|h| - 1].Cleanup? then [] else [h[|h| - 1]]
  }

  /** No failure comes after its address could have been cleaned up. */
  predicate KeptInTouch(c: Config, h: seq<Event>) {
    forall i :: 0 <= i < |h| && h[i].Failure? ==>
      var m := Run(c, WithoutCleanups(h[..i]));
      h[i].ip in m ==> !Stale(m[h[i].ip], h[i].now)
  }

  /** `m` is `all` less stale records. */
  ghost predicate LacksStale(m: Records, all: Records, now: int) {
    && (forall ip :: ip in m ==> ip in all && all[ip] == m[ip])
    && (forall ip :: ip in all && ip !in m ==> Stale(all[ip], now))
  }

  lemma StepLacksStale(c: Config, m: Records, all: Records, before: int, e: Event)
    requires LacksStale(m, all, before) && before <= e.now
    requires e.Failure? && e.ip in all ==> !Stale(all[e.ip], e.now)
    ensures LacksStale(Step(c, m, e), if e.Cleanup? then all else Step(c, all, e), e.now)
    ensures e.Failure? && (e.ip in all ==> all[e.ip].attempts >= 0) ==>
              FailureAnswer(c, m, e.ip, e.now) == FailureAnswer(c, all, e.ip, e.now)
  {
    assert LacksStale(m, all, e.now);
    if e.Failure? {
      assert Found(m, e.ip, e.now) == Found(all, e.ip, e.now);
    }
  }

  lemma RunSnoc(c: Config, h: seq<Event>, e: Event)
    ensures Run(c, h + [e]) == Step(c, Run(c, h), e)
    ensures forall ip :: Guesses(c, h + [e], ip) ==
              Guesses(c, h, ip) + if e.Failure? && e.ip == ip && !IsLocked(Run(c, h), ip, e.now) then 1 else 0
  {
    assert (h + [e])[..|h|] == h;
  }

  lemma {:induction false} CleanupsDropStale(c: Config, h: seq<Event>)
    requires Ordered(h) && KeptInTouch(c, h)
    ensures LacksStale(Run(c, h), Run(c, WithoutCleanups(h)), Now(h))
    decreases |h|
  {
    if h != [] {
      var before, e := h[..|h| - 1], h[|h| - 1];
      assert forall i :: 0 <= i < |before| ==> before[i] == h[i] && before[..i] == h[..i];
      CleanupsDropStale(c, before);
      if before == [] {
        assert LacksStale(Run(c, before), Run(c, WithoutCleanups(before)), e.now);
        StepLacksStale(c, Run(c, before), Run(c, WithoutCleanups(before)), e.now, e);
      } else {
        StepLacksStale(c, Run(c, before), Run(c, WithoutCleanups(before)), Now(before), e);
      }
      if e.Cleanup? {
        assert WithoutCleanups(h) == WithoutCleanups(before);
      } else {
        assert WithoutCleanups(h) == WithoutCleanups(before) + [e];
        RunSnoc(c, WithoutCleanups(before), e);
      }
    }
  }

  /**
   Cleanups cannot be noticed in a run in which no address fails again after it has gone stale: the
   same run without them has the same locks, then and later.
   */
  lemma CleanupsUnnoticed(c: Config, h: seq<Event>, ip: Address, later: int)
    requires Ordered(h) && KeptInTouch(c, h) && later >= Now(h)
    ensures IsLocked(Run(c, h), ip, later) <==> IsLocked(Run(c, WithoutCleanups(h)), ip, later)
  {
    CleanupsDropStale(c, h);
  }

  /** The bound that holds without cleanups: `maxAttempts` guesses, and one more per lockout. */
  predicate OnePerLockout(c: Config, h: seq<Event>, ip: Address, start: int) {
    Guesses(c, h, ip) > c.maxAttempts ==> (Guesses(c, h, ip) - c.maxAttempts) * c.lockout <= Now(h) - start
  }

  /** With one attempt allowed, each guess comes a lockout after the one before, cleaned up or not. */
  predicate Spaced(c: Config, m: Records, ip: Address, guesses: int, start: int, now: int) {
    if ip in m then guesses >= 1 && (guesses - 1) * c.lockout <= m[ip].lastAttempt - start
    else guesses * c.lockout <= now - start
  }

  lemma {:induction false} AlwaysSpaced(c: Config, h: seq<Event>, ip: Address, start: int)
    requires c.maxAttempts == 1 && c.lockout > 0 && Ordered(h) && Since(h, start) && NeverSucceeds(h, ip) && h != []
    ensures Spaced(c, Run(c, h), ip, Guesses(c, h, ip), start, Now(h))
    decreases |h|
  {
    var before := h[..|h| - 1];
    if before == [] {
      assert Run(c, before) == map[] && Guesses(c, before, ip) == 0;
    } else {
      AlwaysSpaced(c, before, ip, start);
      AlwaysSound(c, before);
      var g := Guesses(c, before, ip);
      assert g * c.lockout == (g - 1) * c.lockout + c.lockout;
    }
  }

  /** `n` failures of the address at one time, after the events `h`. */
  function Failing(h: seq<Event>, ip: Address, now: int, n: nat): seq<Event> {
    if n == 0 then h else Failing(h, ip, now, n - 1) + [Failure(ip, now)]
  }

  /** The address has failed `n` times, the last time at `now`. */
  predicate Failed(c: Config, m: Records, ip: Address, now: int, n: nat) {
    if n == 0 then ip !in m
    else
      && ip in m && m[ip].attempts == n
      && m[ip].lockedUntil == if n >= c.maxAttempts then Some(now + c.lockout) else None
  }

  lemma OneFailure(c: Config, m: Records, ip: Address, now: int, n: nat)
    requires n < c.maxAttempts && Failed(c, m, ip, now, n)
    ensures Failed(c, AfterFailure(c, m, ip, now), ip, now, n + 1) && !IsLocked(m, ip, now)
  {
  }

  /** Up to the limit they all count. */
  lemma {:induction false} FailingCounts(c: Config, h: seq<Event>, ip: Address, now: int, n: nat)
    requires n <= c.maxAttempts && ip !in Run(c, h)
    ensures var f := Failing(h, ip, now, n);
      Guesses(c, f, ip) == Guesses(c, h, ip) + n && Failed(c, Run(c, f), ip, now, n)
  {
    if n > 0 {
      var f := Failing(h, ip, now, n - 1);
      FailingCounts(c, h, ip, now, n - 1);
      OneFailure(c, Run(c, f), ip, now, n - 1);
      RunSnoc(c, f, Failure(ip, now));
    }
  }

  lemma {:induction false} FailingIs(h: seq<Event>, ip: Address, now: int, n: nat)
    ensures var f := Failing(h, ip, now, n);
      |f| == |h| + n && forall i :: 0 <= i < |f| ==> f[i] == if i < |h| then h[i] else Failure(ip, now)
  {
    if n > 0 {
      FailingIs(h, ip, now, n - 1);
    }
  }

  /** As many failures as lock the address, a cleanup once the lock is over, and as many again. */
  function Twice(c: Config, ip: Address): seq<Event> {
    if c.maxAttempts < 1 then []
    else
      Failing(Failing([], ip, 0, c.maxAttempts) + [Cleanup(c.lockout + 1)], ip, c.lockout + 1, c.maxAttempts)
  }

  lemma TwiceGuesses(c: Config, ip: Address)
    requires c.maxAttempts >= 1 && c.lockout > 0
    ensures Guesses(c, Twice(c, ip), ip) == 2 * c.maxAttempts
  {
    var n, t := c.maxAttempts, c.lockout + 1;
    var once := Failing([], ip, 0, n);
    FailingCounts(c, [], ip, 0, n);
    LockIsDropped(c, once, ip, 0, n);
    FailingCounts(c, once + [Cleanup(t)], ip, t, n);
  }

  lemma LockIsDropped(c: Config, h: seq<Event>, ip: Address, now: int, n: nat)
    requires 0 < n && n >= c.maxAttempts && Failed(c, Run(c, h), ip, now, n)
    ensures var cleaned := h + [Cleanup(now + c.lockout + 1)];
      ip !in Run(c, cleaned) && Guesses(c, cleaned, ip) == Guesses(c, h, ip)
  {
    RunSnoc(c, h, Cleanup(now + c.lockout + 1));
  }

  lemma TwiceIsRun(c: Config, ip: Address)
    requires c.maxAttempts >= 1 && c.lockout > 0
    ensures var h := Twice(c, ip);
      h != [] && Ordered(h) && Since(h, 0) && NeverSucceeds(h, ip) && Now(h) == c.lockout + 1
  {
    var n, t := c.maxAttempts, c.lockout + 1;
    FailingIs([], ip, 0, n);
    FailingIs(Failing([], ip, 0, n) + [Cleanup(t)], ip, t, n);
  }

  lemma TwiceBreaks(c: Config, ip: Address)
    requires c.maxAttempts >= 2 && c.lockout > 1
    ensures !OnePerLockout(c, Twice(c, ip), ip, 0)
  {
    TwiceGuesses(c, ip);
    TwiceIsRun(c, ip);
    TimesMonotone(2, c.maxAttempts, c.lockout);
  }

  /**
   Cleanup keeps the bound that holds without it, in every run without a success, iff one attempt is
   allowed. With more, `maxAttempts` failures before a cleanup and as many after it break it.
   */
  lemma CleanupKeepsBoundIff(c: Config, ip: Address)
    requires c.maxAttempts >= 1 && c.lockout > 1
    ensures (forall h, start :: Ordered(h) && Since(h, start) && NeverSucceeds(h, ip) && h != [] ==>
               OnePerLockout(c, h, ip, start)) <==> c.maxAttempts == 1
  {
    if c.maxAttempts == 1 {
      forall h, start | Ordered(h) && Since(h, start) && NeverSucceeds(h, ip) && h != []
        ensures OnePerLockout(c, h, ip, start)
      {
        AlwaysSpaced(c, h, ip, start);
        AlwaysSound(c, h);
        Distributes(Guesses(c, h, ip) - 1, 1, c.lockout);
      }
    } else {
      TwiceIsRun(c, ip);
      TwiceBreaks(c, ip);
    }
  }

  /**
   After such a run the next failure notices the cleanups exactly if they dropped its record, and more
   than one attempt is allowed: otherwise it is answered as in the run without them.
   */
  lemma CleanupsNoticedIff(c: Config, h: seq<Event>, ip: Address, later: int)
    requires c.maxAttempts >= 1 && c.lockout > 0 && Ordered(h) && KeptInTouch(c, h) && later >= Now(h)
    ensures Positive(Run(c, h)) && Positive(Run(c, WithoutCleanups(h)))
    ensures FailureAnswer(c, Run(c, h), ip, later) != FailureAnswer(c, Run(c, WithoutCleanups(h)), ip, later)
       <==> c.maxAttempts > 1 && ip in Run(c, WithoutCleanups(h)) && ip !in Run(c, h)
  {
    AlwaysPositive(c, h);
    AlwaysPositive(c, WithoutCleanups(h));
    CleanupsDropStale(c, h);
    AnswersDifferIff(c, Run(c, h), Run(c, WithoutCleanups(h)), Now(h), ip, later);
  }

  lemma AnswersDifferIff(c: Config, m: Records, all: Records, now: int, ip: Address, later: int)
    requires c.maxAttempts >= 1 && LacksStale(m, all, now) && later >= now && Positive(m) && Positive(all)
    ensures FailureAnswer(c, m, ip, later) != FailureAnswer(c, all, ip, later) <==>
            c.maxAttempts > 1 && ip in all && ip !in m
  {
    if ip in all && ip !in m {
      LaterDelaysDiffer(all[ip].attempts + 1);
    }
  }

  predicate Positive(m: Records) {
    forall ip :: ip in m ==> m[ip].attempts >= 1
  }

  lemma {:induction false} AlwaysPositive(c: Config, h: seq<Event>)
    ensures Positive(Run(c, h))
    decreases |h|
  {
    if h != [] {
      AlwaysPositive(c, h[..|h| - 1]);
    }
  }
}
