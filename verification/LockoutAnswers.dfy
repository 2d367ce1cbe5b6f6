/** What the brute-force protector knows and answers, as a function of the calls made so far. */
module LockoutAnswers {
  import opened Options
  import opened Lockout

  /** After these failures the address is locked at `now`. */
  predicate LockedBy(c: Config, tries: seq<int>, now: int) {
    c.maxAttempts <= |tries| && tries != [] && now < tries[|tries| - 1] + c.lockout
  }

  /** These failures are old enough to be forgotten: a day after the last, or right after the lockout they led to. */
  predicate Forgettable(c: Config, tries: seq<int>, now: int) {
    tries != [] &&
    if c.maxAttempts <= |tries| then tries[|tries| - 1] + c.lockout < now else tries[|tries| - 1] + DAY < now
  }

  /**
   The times of the failures that count against the address: those made while it was not locked, since
   its latest success or the cleanup that forgot the ones before.
   */
  function Tries(c: Config, h: seq<Event>, ip: Address): seq<int> {
    if h == [] then []
    else
      var before := Tries(c, h[..|h| - 1], ip);
      match h[|h| - 1]
      case Failure(x, now) => if x == ip && !LockedBy(c, before, now) then before + [now] else before
      case Success(x, _) => if x == ip then [] else before
      case Cleanup(now) => if Forgettable(c, before, now) then [] else before
  }

  /** The record of an address says just that. */
  predicate RecordSays(c: Config, tries: seq<int>, m: Records, ip: Address) {
    if tries == [] then ip !in m
    else
      && ip in m && m[ip].attempts == |tries|
      && m[ip].firstAttempt == tries[0] && m[ip].lastAttempt == tries[|tries| - 1]
      && m[ip].lockedUntil == if c.maxAttempts <= |tries| then Some(tries[|tries| - 1] + c.lockout) else None
  }

  lemma {:induction false} RecordIs(c: Config, h: seq<Event>, ip: Address)
    requires c.maxAttempts >= 1
    ensures RecordSays(c, Tries(c, h, ip), Run(c, h), ip)
    decreases |h|
  {
    if h != [] {
      RecordIs(c, h[..|h| - 1], ip);
    }
  }

  /**
   After any history an address is locked iff `maxAttempts` failures count against it, until the lockout
   after the last of them.
   */
  lemma LockedIff(c: Config, h: seq<Event>, ip: Address, now: int)
    requires c.maxAttempts >= 1
    ensures IsLocked(Run(c, h), ip, now) <==> LockedBy(c, Tries(c, h, ip), now)
  {
    RecordIs(c, h, ip);
  }

  /**
   What a failure is answered: the time left while the address is locked; the lockout if this failure
   locks it; and a delay otherwise, which doubles with every failure that counts, up to 16 seconds, as
   long as there are no more than 34.
   */
  lemma FailureIsAnswered(c: Config, h: seq<Event>, ip: Address, now: int)
    requires c.maxAttempts >= 1
    ensures ip in Run(c, h) ==> Run(c, h)[ip].attempts >= 0
    ensures var tries, answer := Tries(c, h, ip), FailureAnswer(c, Run(c, h), ip, now);
      if LockedBy(c, tries, now) then answer == Answer(true, tries[|tries| - 1] + c.lockout - now)
      else if c.maxAttempts <= |tries| + 1 then answer == Answer(true, c.lockout)
      else !answer.locked && (|tries| + 1 < 35 ==> answer.delay == Doubling(|tries| + 1))
    ensures FailureAnswer(c, Run(c, h), ip, now).locked <==>
            c.maxAttempts <= |Tries(c, h, ip)| + 1 || LockedBy(c, Tries(c, h, ip), now)
  {
    var tries := Tries(c, h, ip);
    RecordIs(c, h, ip);
    AnswerOf(c, tries, Run(c, h), ip, now);
    if |tries| + 1 < 35 {
      DelayExact(|tries| + 1);
    }
  }

  lemma AnswerOf(c: Config, tries: seq<int>, m: Records, ip: Address, now: int)
    requires c.maxAttempts >= 1 && RecordSays(c, tries, m, ip)
    ensures ip in m ==> m[ip].attempts >= 0
    ensures FailureAnswer(c, m, ip, now) ==
            if LockedBy(c, tries, now) then Answer(true, tries[|tries| - 1] + c.lockout - now)
            else if c.maxAttempts <= |tries| + 1 then Answer(true, c.lockout)
            else Answer(false, Delay(|tries| + 1))
  {
  }

  /** A configured value counts if it is positive; the defaults are 10 attempts, 15 minutes and 5 minutes. */
  lemma ConfiguredIs(maxAttempts: int, lockoutMinutes: int, cleanupMinutes: int)
    ensures var c := Configured(maxAttempts, lockoutMinutes, cleanupMinutes);
      && c.maxAttempts == (if 0 < maxAttempts then maxAttempts else 10)
      && c.lockout == 60 * SECOND * (if 0 < lockoutMinutes then lockoutMinutes else 15)
      && c.cleanupInterval == 60 * SECOND * (if 0 < cleanupMinutes then cleanupMinutes else 5)
  {
  }
}
