/**
 Admin login: the lock check and failure counting of apps/license-api/internal/service/adminauth.go
 over apps/license-api/internal/store/adminstore.go, and how many wrong guesses they let through.
 Password hashes and TOTP codes are not computed here: an attempt says how they compare.
 Instants are milliseconds.
 */
module Lockout {

  const LOCK := 15 * 60 * 1000
  const THRESHOLD := 5

  datatype Code = NoCode | WrongCode | RightCode
  datatype Attempt = Attempt(now: int, passwordOk: bool, code: Code)

  datatype Account = Account(active: bool, mfaEnabled: bool, failedAttempts: int, lockedUntil: Lock)
  datatype Lock = Unlocked | Until(time: int)

  datatype Outcome = LoggedIn | BadCredentials | AccountLocked | MfaRequired | MfaBad

  function Failed(a: Account, now: int): Account {
    a.(failedAttempts := a.failedAttempts + 1,
       lockedUntil := if a.failedAttempts + 1 >= THRESHOLD then Until(now + LOCK) else Unlocked)
  }

  function Login(a: Account, t: Attempt): (Account, Outcome) {
    if !a.active then (a, BadCredentials)
    else if a.lockedUntil.Until? && a.lockedUntil.time > t.now then (a, AccountLocked)
    else if !t.passwordOk then (Failed(a, t.now), BadCredentials)
    else if a.mfaEnabled && t.code == NoCode then (a, MfaRequired)
    else if a.mfaEnabled && t.code == WrongCode then (Failed(a, t.now), MfaBad)
    else (a.(failedAttempts := 0, lockedUntil := Unlocked), LoggedIn)
  }

  class AdminRow {
    var active: bool
    var mfaEnabled: bool
    var failedAttempts: int
    var lockedUntil: Lock

    constructor (mfaEnabled: bool)
      ensures View() == Account(true, mfaEnabled, 0, Unlocked)
    {
      this.active, this.mfaEnabled, failedAttempts, lockedUntil := true, mfaEnabled, 0, Unlocked;
    }

    function View(): Account
      reads this
    {
      Account(active, mfaEnabled, failedAttempts, lockedUntil)
    }

    method OnLoginFailed(now: int) returns (locked: bool)
      modifies this`failedAttempts, this`lockedUntil
      ensures View() == Failed(old(View()), now)
      ensures locked <==> old(failedAttempts) + 1 >= THRESHOLD
    {
      failedAttempts := failedAttempts + 1;
      lockedUntil := if failedAttempts >= THRESHOLD then Until(now + LOCK) else Unlocked;
      locked := lockedUntil.Until? && lockedUntil.time > now;
    }

    method OnLoginSuccess()
      modifies this`failedAttempts, this`lockedUntil
      ensures View() == old(View()).(failedAttempts := 0, lockedUntil := Unlocked)
    {
      failedAttempts, lockedUntil := 0, Unlocked;
    }

    method AdminLogin(t: Attempt) returns (outcome: Outcome)
      modifies this`failedAttempts, this`lockedUntil
      ensures (View(), outcome) == Login(old(View()), t)
    {
      if !active {
        return BadCredentials;
      }
      if lockedUntil.Until? && lockedUntil.time > t.now {
        return AccountLocked;
      }
      if !t.passwordOk {
        var locked := OnLoginFailed(t.now);
        return BadCredentials;
      }
      if mfaEnabled {
        if t.code == NoCode {
          return MfaRequired;
        }
        if t.code == WrongCode {
          var locked := OnLoginFailed(t.now);
          return MfaBad;
        }
      }
      OnLoginSuccess();
      outcome := LoggedIn;
    }
  }

  // ----- runs without a success -----

  function After(a: Account, ts: seq<Attempt>): Account {
    if ts == [] then a else Login(After(a, ts[..|ts| - 1]), ts[|ts| - 1]).0
  }

  /** The attempt is let through to a credential check and fails it. */
  predicate Fails(a: Account, t: Attempt) {
    var outcome := Login(a, t).1;
    a.active && (outcome == BadCredentials || outcome == MfaBad)
  }

  /** When the failed credential checks of a run took place. */
  function Failures(a: Account, ts: seq<Attempt>): seq<int> {
    if ts == [] then []
    else
      var front, t := ts[..|ts| - 1], ts[|ts| - 1];
      Failures(a, front) + if Fails(After(a, front), t) then [t.now] else []
  }

  ghost predicate NoSuccess(a: Account, ts: seq<Attempt>) {
    forall i :: 0 <= i < |ts| ==> Login(After(a, ts[..i]), ts[i]).1 != LoggedIn
  }

  ghost predicate Timely(ts: seq<Attempt>) {
    forall i, j :: 0 <= i < j < |ts| ==> ts[i].now <= ts[j].now
  }

  ghost predicate Sorted(fs: seq<int>) {
    forall i, j :: 0 <= i < j < |fs| ==> fs[i] <= fs[j]
  }

  /** From the fifth failure on, 15 minutes pass before the next. */
  ghost predicate Spaced(fs: seq<int>) {
    forall i :: THRESHOLD <= i < |fs| ==> fs[i - 1] + LOCK <= fs[i]
  }

  /** The row counts the failures fs and is locked after the latest once there are five. */
  ghost predicate Counts(s: Account, fs: seq<int>) {
    && s.failedAttempts == |fs|
    && s.lockedUntil == (if |fs| >= THRESHOLD then Until(fs[|fs| - 1] + LOCK) else Unlocked)
    && Sorted(fs) && Spaced(fs)
  }

  lemma AttemptCounts(s: Account, fs: seq<int>, t: Attempt)
    requires Counts(s, fs) && (fs != [] ==> fs[|fs| - 1] <= t.now) && Login(s, t).1 != LoggedIn
    ensures Counts(Login(s, t).0, fs + if Fails(s, t) then [t.now] else [])
  {
  }

  lemma NoSuccessBefore(a: Account, ts: seq<Attempt>)
    requires ts != [] && NoSuccess(a, ts)
    ensures NoSuccess(a, ts[..|ts| - 1]) && Login(After(a, ts[..|ts| - 1]), ts[|ts| - 1]).1 != LoggedIn
  {
    var front := ts[..|ts| - 1];
    forall i | 0 <= i < |front| ensures Login(After(a, front[..i]), front[i]).1 != LoggedIn {
      assert front[..i] == ts[..i] && front[i] == ts[i];
    }
  }

  /** Every failure happened at or before the instant hi. */
  ghost predicate UpTo(fs: seq<int>, hi: int) {
    fs != [] ==> fs[|fs| - 1] <= hi
  }

  lemma {:induction false} FailuresCounted(a: Account, ts: seq<Attempt>)
    requires Counts(a, []) && NoSuccess(a, ts) && Timely(ts)
    ensures Counts(After(a, ts), Failures(a, ts))
    ensures if ts == [] then Failures(a, ts) == [] else UpTo(Failures(a, ts), ts[|ts| - 1].now)
  {
    if ts != [] {
      var n := |ts| - 1;
      var front := ts[..n];
      NoSuccessBefore(a, ts);
      FailuresCounted(a, front);
      assert front != [] ==> front[n - 1].now <= ts[n].now;
      AttemptCounts(After(a, front), Failures(a, front), ts[n]);
      LatestFailure(Failures(a, front), if front == [] then ts[n].now else front[n - 1].now, ts[n].now,
                    Fails(After(a, front), ts[n]));
    }
  }

  lemma LatestFailure(fs: seq<int>, hi: int, now: int, fails: bool)
    requires UpTo(fs, hi) && hi <= now
    ensures UpTo(fs + if fails then [now] else [], now)
  {
    assert fs + [] == fs;
  }

  function Count(fs: seq<int>, lo: int, hi: int): nat {
    if fs == [] then 0 else Count(fs[..|fs| - 1], lo, hi) + if lo <= fs[|fs| - 1] < hi then 1 else 0
  }

  lemma {:induction false} CountAtMost(fs: seq<int>, lo: int, hi: int)
    ensures Count(fs, lo, hi) <= |fs|
  {
    if fs != [] {
      CountAtMost(fs[..|fs| - 1], lo, hi);
    }
  }

  lemma {:induction false} CountNone(fs: seq<int>, lo: int, hi: int)
    requires forall i :: 0 <= i < |fs| ==> fs[i] < lo
    ensures Count(fs, lo, hi) == 0
  {
    if fs != [] {
      CountNone(fs[..|fs| - 1], lo, hi);
    }
  }

  lemma {:induction false} SpacedCount(fs: seq<int>, lo: int)
    requires Sorted(fs) && Spaced(fs)
    ensures Count(fs, lo, lo + LOCK) <= THRESHOLD
  {
    var n := |fs| - 1;
    if n < THRESHOLD {
      CountAtMost(fs, lo, lo + LOCK);
    } else {
      SpacedCount(fs[..n], lo);
      if lo <= fs[n] < lo + LOCK {
        assert fs[n - 1] < lo;
        CountNone(fs[..n], lo, lo + LOCK);
      }
    }
  }

  lemma SpacedFront(fs: seq<int>)
    requires fs != [] && Sorted(fs) && Spaced(fs)
    ensures Sorted(fs[..|fs| - 1]) && Spaced(fs[..|fs| - 1])
  {
  }

  /** What precedes a late failure ended a lock time before it. */
  lemma FrontEnds(fs: seq<int>)
    requires |fs| > THRESHOLD && Sorted(fs) && Spaced(fs)
    ensures forall i :: 0 <= i < |fs| - 1 ==> fs[i] <= fs[|fs| - 1] - LOCK
  {
    var n := |fs| - 1;
    forall i | 0 <= i < n ensures fs[i] <= fs[n] - LOCK {
      assert fs[n - 1] + LOCK <= fs[n];
      assert i < n - 1 ==> fs[i] <= fs[n - 1];
    }
  }

  /** What an interval of this length may see. */
  function Allowed(span: nat): nat {
    THRESHOLD + span / LOCK
  }

  lemma OneLockLonger(shorter: nat, span: nat)
    requires shorter + LOCK <= span
    ensures Allowed(shorter) + 1 <= Allowed(span)
  {
  }

  /** The last failure comes more than a lock time into the interval. */
  lemma LateFailure(fs: seq<int>, lo: int, span: nat, shorter: nat)
    requires |fs| > THRESHOLD && Sorted(fs) && Spaced(fs)
    requires shorter == fs[|fs| - 1] - LOCK + 1 - lo && fs[|fs| - 1] < lo + span
    requires Count(fs[..|fs| - 1], lo, lo + shorter) <= Allowed(shorter)
    ensures Count(fs, lo, lo + span) <= Allowed(span)
  {
    FrontEnds(fs);
    CountUpTo(fs[..|fs| - 1], lo, lo + span, lo + shorter);
    OneLockLonger(shorter, span);
  }

  lemma EarlyFailure(fs: seq<int>, lo: int, hi: int)
    requires |fs| > THRESHOLD && Sorted(fs) && Spaced(fs) && fs[|fs| - 1] < lo + LOCK
    ensures Count(fs, lo, hi) <= 1
  {
    FrontEnds(fs);
    CountNone(fs[..|fs| - 1], lo, hi);
  }

  /** Failures in an interval, counted against its length. */
  lemma {:induction false} SpacedSpan(fs: seq<int>, lo: int, span: nat)
    requires Sorted(fs) && Spaced(fs)
    ensures Count(fs, lo, lo + span) <= Allowed(span)
    decreases |fs|
  {
    var n := |fs| - 1;
    if n < THRESHOLD {
      CountAtMost(fs, lo, lo + span);
    } else if fs[n] < lo + LOCK {
      EarlyFailure(fs, lo, lo + span);
    } else {
      SpacedFront(fs);
      if fs[n] >= lo + span {
        SpacedSpan(fs[..n], lo, span);
      } else {
        SpacedSpan(fs[..n], lo, fs[n] - LOCK + 1 - lo);
        LateFailure(fs, lo, span, fs[n] - LOCK + 1 - lo);
      }
    }
  }

  /** The upper end does not matter as long as every failure lies below it. */
  lemma {:induction false} CountUpTo(fs: seq<int>, lo: int, hi: int, hi': int)
    requires forall i :: 0 <= i < |fs| ==> fs[i] < hi && fs[i] < hi'
    ensures Count(fs, lo, hi) == Count(fs, lo, hi')
  {
    if fs != [] {
      CountUpTo(fs[..|fs| - 1], lo, hi, hi');
    }
  }

  /** With no success in between, any 15 minutes see at most 5 failed credential checks, and any T
      milliseconds at most 5 + floor(T / 15 min), wherever the interval lies. */
  lemma GuessesBounded(a: Account, ts: seq<Attempt>, lo: int, span: nat)
    requires a.failedAttempts == 0 && a.lockedUntil == Unlocked && NoSuccess(a, ts) && Timely(ts)
    ensures var fs := Failures(a, ts);
            Count(fs, lo, lo + 900_000) <= 5 && Count(fs, lo, lo + span) <= 5 + span / 900_000
  {
    FailuresCounted(a, ts);
    SpacedCount(Failures(a, ts), lo);
    SpacedSpan(Failures(a, ts), lo, span);
  }

  // ----- the answers -----

  /** What each answer means, and what it leaves in the row. */
  lemma LoginExactly(a: Account, t: Attempt)
    ensures var (b, outcome) := Login(a, t);
      var open := a.active && !(a.lockedUntil.Until? && a.lockedUntil.time > t.now);
      && (outcome == LoggedIn <==> open && t.passwordOk && (a.mfaEnabled ==> t.code == RightCode))
      && (outcome == AccountLocked <==> a.active && !open)
      && (outcome == MfaRequired <==> open && t.passwordOk && a.mfaEnabled && t.code == NoCode)
      && (outcome == MfaBad <==> open && t.passwordOk && a.mfaEnabled && t.code == WrongCode)
      && b.active == a.active && b.mfaEnabled == a.mfaEnabled
      && (if outcome == LoggedIn then b.failedAttempts == 0 && b.lockedUntil == Unlocked
          else if open && (outcome == BadCredentials || outcome == MfaBad)
          then && b.failedAttempts == a.failedAttempts + 1
               && b.lockedUntil == (if a.failedAttempts + 1 >= 5 then Until(t.now + 900_000) else Unlocked)
          else b == a)
  {
  }
}
