/**
 * The dashboard's login lockout (`FAILED`, `is_locked`, `register_fail`,
 * `clear_fails` and the `/login` route in em_impact_app/app.py). Each client
 * key has a failure count and a time until which it is locked. The limits
 * `MAX_LOGIN_ATTEMPTS` and `LOCKOUT_SECONDS` come from the environment, so
 * they are constructor parameters; the clock is an integer parameter.
 */
module LoginLockout {

  /** `{"count": ..., "locked_until": ...}` */
  datatype Record = Record(count: int, lockedUntil: int)

  /** `is_locked`'s answer: locked, and for how many more seconds. */
  datatype Status = Status(locked: bool, remaining: int)

  /** The page the `/login` route renders or redirects to. */
  datatype Outcome = TooManyAttempts(remaining: int) | InvalidPassword | LoggedIn | LoginForm

  /** A visit to `/login`: a plain view, or a submitted password that does or does not match. */
  datatype Visit = View | Submit(passwordMatches: bool)

  const DefaultMaxAttempts: int := 5
  const DefaultLockoutSeconds: int := 300

  /** The answer of `is_locked(key)` at time `now`. */
  function LockStatus(failed: map<string, Record>, key: string, now: int): (s: Status)
    ensures s.locked <==> key in failed && failed[key].lockedUntil > now
    ensures s.locked ==> s.remaining == failed[key].lockedUntil - now && s.remaining > 0
    ensures !s.locked ==> s.remaining == 0
  {
    if key !in failed then Status(false, 0)
    else if failed[key].lockedUntil > now then Status(true, failed[key].lockedUntil - now)
    else Status(false, 0)
  }

  /** What `is_locked(key)` leaves behind: an expired lock is reset to 0, nothing else changes. */
  function AfterCheck(failed: map<string, Record>, key: string, now: int): (m: map<string, Record>)
    ensures m.Keys == failed.Keys
    ensures forall k :: k in failed && k != key ==> m[k] == failed[k]
    ensures key in failed ==> m[key].count == failed[key].count
    ensures key in failed ==> m[key].lockedUntil == if failed[key].lockedUntil > now then failed[key].lockedUntil else 0
  {
    if key in failed && failed[key].lockedUntil <= now then failed[key := failed[key].(lockedUntil := 0)]
    else failed
  }

  /** What `register_fail(key)` leaves behind. */
  function AfterFail(failed: map<string, Record>, key: string, now: int, maxAttempts: int, lockoutSeconds: int)
    : (m: map<string, Record>)
    ensures m.Keys == failed.Keys + {key}
    ensures forall k :: k in failed && k != key ==> m[k] == failed[k]
  {
    var rec := if key in failed then failed[key] else Record(0, 0);
    var count := rec.count + 1;
    failed[key := Record(count, if count >= maxAttempts then now + lockoutSeconds else rec.lockedUntil)]
  }

  /** What `clear_fails(key)` leaves behind. */
  function Cleared(failed: map<string, Record>, key: string): (m: map<string, Record>)
    ensures m.Keys == failed.Keys + {key}
    ensures m[key] == Record(0, 0)
    ensures forall k :: k in failed && k != key ==> m[k] == failed[k]
  {
    failed[key := Record(0, 0)]
  }

  /** The failure count before a failure: 0 for a key never seen. */
  function CountOf(failed: map<string, Record>, key: string): int {
    if key in failed then failed[key].count else 0
  }

  /**
   * Each failure adds exactly one to the key's count, and sets a new lock
   * `lockoutSeconds` from now exactly when the count reaches the limit.
   */
  lemma FailCountsOnce(failed: map<string, Record>, key: string, now: int, maxAttempts: int, lockoutSeconds: int)
    ensures var m := AfterFail(failed, key, now, maxAttempts, lockoutSeconds);
            && m[key].count == CountOf(failed, key) + 1
            && (m[key].count >= maxAttempts ==> m[key].lockedUntil == now + lockoutSeconds)
            && (m[key].count < maxAttempts ==> m[key].lockedUntil == (if key in failed then failed[key].lockedUntil else 0))
  {
  }

  /** Failures one after another, at the given times. */
  function FailAll(failed: map<string, Record>, key: string, times: seq<int>, maxAttempts: int, lockoutSeconds: int)
    : map<string, Record>
  {
    if times == [] then failed
    else AfterFail(FailAll(failed, key, times[..|times| - 1], maxAttempts, lockoutSeconds),
                   key, times[|times| - 1], maxAttempts, lockoutSeconds)
  }

  /** `n` failures raise the count by `n`. */
  lemma {:induction false} FailAllCounts(failed: map<string, Record>, key: string, times: seq<int>,
                                         maxAttempts: int, lockoutSeconds: int)
    ensures key in FailAll(failed, key, times, maxAttempts, lockoutSeconds) || times == []
    ensures CountOf(FailAll(failed, key, times, maxAttempts, lockoutSeconds), key) == CountOf(failed, key) + |times|
  {
    if times != [] {
      FailAllCounts(failed, key, times[..|times| - 1], maxAttempts, lockoutSeconds);
    }
  }

  /**
   * From a clean record, `maxAttempts` failures lock the key: right after
   * the last one, `is_locked` reports the full lockout.
   */
  lemma MaxFailuresLock(failed: map<string, Record>, key: string, times: seq<int>,
                        maxAttempts: int, lockoutSeconds: int)
    requires CountOf(failed, key) == 0 && |times| == maxAttempts && maxAttempts >= 1
    requires lockoutSeconds > 0
    ensures LockStatus(FailAll(failed, key, times, maxAttempts, lockoutSeconds), key, times[|times| - 1])
         == Status(true, lockoutSeconds)
  {
    FailAllCounts(failed, key, times[..|times| - 1], maxAttempts, lockoutSeconds);
  }

  /**
   * The count is not reset when a lock expires: once a key has reached the
   * limit, the first failure after expiry locks it again at once.
   */
  lemma RelockAfterExpiry(failed: map<string, Record>, key: string, now: int, maxAttempts: int, lockoutSeconds: int)
    requires key in failed && failed[key].count >= maxAttempts && lockoutSeconds > 0
    requires failed[key].lockedUntil <= now
    ensures !LockStatus(failed, key, now).locked
    ensures LockStatus(AfterFail(AfterCheck(failed, key, now), key, now, maxAttempts, lockoutSeconds), key, now)
         == Status(true, lockoutSeconds)
  {
  }

  /** After `clear_fails(key)` the key is not locked (the clock reads a time at or after the epoch). */
  lemma ClearedIsUnlocked(failed: map<string, Record>, key: string, now: int)
    requires now >= 0
    ensures LockStatus(Cleared(failed, key), key, now) == Status(false, 0)
    ensures CountOf(Cleared(failed, key), key) == 0
  {
  }

  /** An unknown key is reported unlocked and gets no entry. */
  lemma UnknownKeyUntouched(failed: map<string, Record>, key: string, now: int)
    requires key !in failed
    ensures LockStatus(failed, key, now) == Status(false, 0)
    ensures AfterCheck(failed, key, now) == failed
  {
  }

  /** The dictionary `FAILED` with the limits the process started with. */
  class Lockout {
    var failed: map<string, Record>
    const maxAttempts: int
    const lockoutSeconds: int

    constructor (maxAttempts: int, lockoutSeconds: int)
      ensures failed == map[]
      ensures this.maxAttempts == maxAttempts && this.lockoutSeconds == lockoutSeconds
    {
      failed := map[];
      this.maxAttempts := maxAttempts;
      this.lockoutSeconds := lockoutSeconds;
    }

    /** `is_locked(key)` at time `now`. */
    method IsLocked(key: string, now: int) returns (locked: bool, remaining: int)
      modifies this
      ensures Status(locked, remaining) == LockStatus(old(failed), key, now)
      ensures failed == AfterCheck(old(failed), key, now)
    {
      if key !in failed {
        return false, 0;
      }
      var until := failed[key].lockedUntil;
      if until > now {
        return true, until - now;
      }
      failed := failed[key := failed[key].(lockedUntil := 0)];
      return false, 0;
    }

    /** `register_fail(key)` at time `now`. */
    method RegisterFail(key: string, now: int)
      modifies this
      ensures failed == AfterFail(old(failed), key, now, maxAttempts, lockoutSeconds)
    {
      var rec := if key in failed then failed[key] else Record(0, 0);
      rec := rec.(count := rec.count + 1);
      if rec.count >= maxAttempts {
        rec := rec.(lockedUntil := now + lockoutSeconds);
      }
      failed := failed[key := rec];
    }

    /** `clear_fails(key)` */
    method ClearFails(key: string)
      modifies this
      ensures failed == Cleared(old(failed), key)
    {
      failed := failed[key := Record(0, 0)];
    }

    /**
     * The `/login` route for client `key` at time `now`: a locked key is
     * refused before the password is looked at; a matching password clears
     * the record; a wrong one counts a failure and may lock at once.
     */
    method Login(key: string, visit: Visit, now: int) returns (outcome: Outcome)
      modifies this
      ensures LockStatus(old(failed), key, now).locked ==>
                outcome == TooManyAttempts(LockStatus(old(failed), key, now).remaining) && failed == old(failed)
      ensures !LockStatus(old(failed), key, now).locked && visit == View ==>
                outcome == LoginForm && failed == AfterCheck(old(failed), key, now)
      ensures !LockStatus(old(failed), key, now).locked && visit == Submit(true) ==>
                outcome == LoggedIn && failed == Cleared(old(failed), key)
      ensures !LockStatus(old(failed), key, now).locked && visit == Submit(false) ==>
                var m := AfterFail(AfterCheck(old(failed), key, now), key, now, maxAttempts, lockoutSeconds);
                && failed == AfterCheck(m, key, now)
                && outcome == (if LockStatus(m, key, now).locked then TooManyAttempts(LockStatus(m, key, now).remaining)
                               else InvalidPassword)
    {
      var locked, remaining := IsLocked(key, now);
      if locked {
        return TooManyAttempts(remaining);
      }
      match visit
      case View =>
        return LoginForm;
      case Submit(ok) =>
        if ok {
          ClearFails(key);
          return LoggedIn;
        }
        RegisterFail(key, now);
        locked, remaining := IsLocked(key, now);
        outcome := if locked then TooManyAttempts(remaining) else InvalidPassword;
    }
  }
}
