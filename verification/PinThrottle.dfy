/**
 The PIN back-off of app-mobile/services/appLock.ts, with unlockWithPin of
 app-mobile/contexts/AppLockContext.tsx, the only caller that checks a PIN.
 Times are in milliseconds.
 */
module PinThrottle {
  const BASE_MS: nat := 30000
  const MAX_MS: nat := 900000

  datatype Throttle = Throttle(failures: nat, retryAt: nat)

  datatype UnlockResult = Unlocked | Throttled(retryAfterMs: nat) | Invalid

  function Min(a: nat, b: nat): nat { if a < b then a else b }

  function Pow2(n: nat): nat { if n == 0 then 1 else 2 * Pow2(n - 1) }

  /** The back-off set by the n-th failure. */
  function Delay(n: nat): nat
    requires 5 <= n
  {
    Min(BASE_MS * Pow2(n - 5), MAX_MS)
  }

  function RegisterFailed(current: Throttle, now: nat): Throttle {
    if current.retryAt > now then current
    else
      var failures := current.failures + 1;
      Throttle(failures, if failures >= 5 then now + Delay(failures) else 0)
  }

  /** A call of unlockWithPin: the clock it read, and whether the PIN is the right one. */
  datatype Call = Call(now: nat, matches: bool)

  /** The PIN of this call is compared with the stored one. */
  predicate Checked(t: Throttle, now: nat) { t.retryAt <= now }

  function Unlock(t: Throttle, call: Call): (Throttle, UnlockResult) {
    if !Checked(t, call.now) then (t, Throttled(t.retryAt - call.now))
    else if call.matches then (Throttle(0, 0), Unlocked)
    else
      var failed := RegisterFailed(t, call.now);
      (failed, if failed.retryAt > call.now then Throttled(failed.retryAt - call.now) else Invalid)
  }

  /** The throttle record of the secure storage; an absent record reads as no failure. */
  class SecureRecord {
    var stored: bool
    var failures: nat
    var retryAt: nat

    constructor ()
      ensures View() == Throttle(0, 0)
    {
      stored, failures, retryAt := false, 0, 0;
    }

    function View(): Throttle
      reads this
    {
      if stored then Throttle(failures, retryAt) else Throttle(0, 0)
    }

    method RegisterFailedPinAttempt(now: nat) returns (next: Throttle)
      modifies this
      ensures View() == next == RegisterFailed(old(View()), now)
    {
      var current := View();
      if current.retryAt > now {
        return current;
      }
      var count := current.failures + 1;
      var until := 0;
      if count >= 5 {
        until := now + Min(BASE_MS * Pow2(count - 5), MAX_MS);
      }
      stored, failures, retryAt := true, count, until;
      next := Throttle(count, until);
    }

    method ClearPinThrottleState()
      modifies this
      ensures View() == Throttle(0, 0)
    {
      stored := false;
    }

    method UnlockWithPin(now: nat, matches: bool) returns (result: UnlockResult)
      modifies this
      ensures (View(), result) == Unlock(old(View()), Call(now, matches))
    {
      var throttle := View();
      if throttle.retryAt > now {
        return Throttled(throttle.retryAt - now);
      }
      if matches {
        ClearPinThrottleState();
        return Unlocked;
      }
      var failed := RegisterFailedPinAttempt(now);
      if failed.retryAt > now {
        return Throttled(failed.retryAt - now);
      }
      return Invalid;
    }
  }

  // ----- runs of wrong PINs

  predicate WrongPins(calls: seq<Call>) {
    && (forall i | 0 <= i < |calls| :: !calls[i].matches)
    && (forall i, j | 0 <= i < j < |calls| :: calls[i].now <= calls[j].now)
  }

  function Run(t: Throttle, calls: seq<Call>): Throttle {
    if calls == [] then t else Unlock(Run(t, calls[..|calls| - 1]), calls[|calls| - 1]).0
  }

  /** The times of the calls whose PIN was really compared. */
  function CheckedTimes(t: Throttle, calls: seq<Call>): seq<nat> {
    if calls == [] then []
    else
      var before, last := calls[..|calls| - 1], calls[|calls| - 1];
      CheckedTimes(t, before) + (if Checked(Run(t, before), last.now) then [last.now] else [])
  }

  /** The sum of the back-offs of the failures from `lo` to `hi - 1`. */
  function DelaySum(lo: nat, hi: nat): nat
    requires 5 <= lo
    decreases hi - lo
  {
    if hi <= lo then 0 else DelaySum(lo, hi - 1) + Delay(hi - 1)
  }

  /** The record counts the checked PINs and blocks until the last one's back-off is over. */
  lemma {:induction false} RunCountsChecked(calls: seq<Call>)
    requires WrongPins(calls)
    ensures var times, t := CheckedTimes(Throttle(0, 0), calls), Run(Throttle(0, 0), calls);
            && t.failures == |times|
            && (|times| >= 5 ==> t.retryAt == times[|times| - 1] + Delay(|times|))
    ensures forall k | 5 <= k < |CheckedTimes(Throttle(0, 0), calls)| ::
              var times := CheckedTimes(Throttle(0, 0), calls);
              times[k - 1] + Delay(k) <= times[k]
    decreases |calls|
  {
    if calls != [] {
      RunCountsChecked(calls[..|calls| - 1]);
    }
  }

  lemma {:induction false} CheckedSpacing(times: seq<nat>, n: nat)
    requires 5 <= n <= |times|
    requires forall k | 5 <= k < |times| :: times[k - 1] + Delay(k) <= times[k]
    ensures times[4] + DelaySum(5, n) <= times[n - 1]
    decreases n
  {
    if n > 5 {
      CheckedSpacing(times, n - 1);
    }
  }

  /** 30 s, doubled up to 15 min. */
  lemma DelayDoubles(n: nat)
    requires 5 <= n
    ensures Delay(5) == 30000 && Delay(n + 1) == Min(2 * Delay(n), 900000)
  {
    assert Pow2(n + 1 - 5) == 2 * Pow2(n - 5);
  }

  lemma {:induction false} DelayCapped(n: nat)
    requires 10 <= n
    ensures Delay(n) == MAX_MS
    decreases n
  {
    if n == 10 {
      assert Pow2(5) == 2 * Pow2(4) && Pow2(4) == 2 * Pow2(3) && Pow2(3) == 2 * Pow2(2) && Pow2(2) == 4;
    } else {
      DelayCapped(n - 1);
      assert Pow2(n - 5) == 2 * Pow2(n - 6);
    }
  }

  lemma {:induction false} DelaySumClosed(n: nat)
    requires 10 <= n
    ensures DelaySum(5, n) == 930000 + 900000 * (n - 10)
    decreases n
  {
    if n == 10 {
      assert Pow2(1) == 2 && Pow2(2) == 4 && Pow2(3) == 2 * Pow2(2) && Pow2(4) == 2 * Pow2(3);
      assert DelaySum(5, 6) == Delay(5) && DelaySum(5, 7) == DelaySum(5, 6) + Delay(6);
      assert DelaySum(5, 8) == DelaySum(5, 7) + Delay(7) && DelaySum(5, 9) == DelaySum(5, 8) + Delay(8);
    } else {
      DelaySumClosed(n - 1);
      DelayCapped(n - 1);
    }
  }

  /**
   However many calls are made and whenever, the n-th PIN that is really compared comes at least the
   sum of the back-offs 5 to n - 1 after the fifth, that is 930 s and then 900 s for each further one.
   */
  lemma CheckedPinsTakeTime(calls: seq<Call>, n: nat)
    requires WrongPins(calls)
    requires 5 <= n <= |CheckedTimes(Throttle(0, 0), calls)|
    ensures var times := CheckedTimes(Throttle(0, 0), calls);
            && times[4] + DelaySum(5, n) <= times[n - 1]
            && (n >= 10 ==> times[4] + 930000 + 900000 * (n - 10) <= times[n - 1])
  {
    RunCountsChecked(calls);
    CheckedSpacing(CheckedTimes(Throttle(0, 0), calls), n);
    if n >= 10 {
      DelaySumClosed(n);
    }
  }

  // ----- runs of any PINs, right or wrong

  /** The times of the wrong PINs compared since the last right one. */
  function Streak(calls: seq<Call>): seq<nat> {
    if calls == [] then []
    else
      var before, last := Streak(calls[..|calls| - 1]), calls[|calls| - 1];
      if Waits(before, last.now) then before else if last.matches then [] else before + [last.now]
  }

  /** Five or more wrong PINs were compared, and the back-off of the last is not over. */
  predicate Waits(streak: seq<nat>, now: nat) { |streak| >= 5 && now < streak[|streak| - 1] + Delay(|streak|) }

  /** What is left of the back-off that runs, or the one that another wrong PIN begins. */
  function Wait(streak: seq<nat>, now: nat): int
    requires |streak| >= 4
  {
    if Waits(streak, now) then streak[|streak| - 1] + Delay(|streak|) - now else Delay(|streak| + 1)
  }

  /** The record of a streak: its length, and the end of its last back-off. */
  lemma {:induction false} RunIsItsStreak(calls: seq<Call>)
    ensures var streak, t := Streak(calls), Run(Throttle(0, 0), calls);
            t.failures == |streak| && t.retryAt == if |streak| >= 5 then streak[|streak| - 1] + Delay(|streak|) else 0
    decreases |calls|
  {
    if calls != [] {
      RunIsItsStreak(calls[..|calls| - 1]);
    }
  }

  /**
   After any calls at any times, a call answers: how long to wait, exactly while a back-off runs, with the PIN
   not even compared; else that it is unlocked, exactly for the right PIN, and the record is cleared; else the
   back-off that this wrong PIN begins, exactly from the fifth of its streak on; else that the PIN is wrong.
   */
  lemma AnswersExactly(calls: seq<Call>, call: Call)
    ensures var streak := Streak(calls); var (t, answer) := Unlock(Run(Throttle(0, 0), calls), call);
            && (answer == Unlocked <==> !Waits(streak, call.now) && call.matches)
            && (answer == Unlocked ==> t == Throttle(0, 0))
            && (answer == Invalid <==> !Waits(streak, call.now) && !call.matches && |streak| < 4)
            && (answer.Throttled? ==> |streak| >= 4 && answer.retryAfterMs == Wait(streak, call.now) && answer.retryAfterMs > 0)
            && (Waits(streak, call.now) ==> t == Run(Throttle(0, 0), calls))
  {
    RunIsItsStreak(calls);
    DelayIsPositive(|Streak(calls)| + 1);
  }

  lemma {:induction false} DelayIsPositive(n: nat)
    ensures n >= 5 ==> Delay(n) > 0 && Pow2(n - 5) > 0
  {
    if n > 5 {
      DelayIsPositive(n - 1);
    }
  }

  /** Wrong PINs never unlock, from any record and however many. */
  lemma {:induction false} WrongPinsNeverUnlock(t: Throttle, calls: seq<Call>, k: nat)
    requires k < |calls| && !calls[k].matches
    ensures Unlock(Run(t, calls[..k]), calls[k]).1 != Unlocked
    ensures Run(t, calls[..k]).failures <= Run(t, calls[..k + 1]).failures
  {
    assert calls[..k + 1][..k] == calls[..k];
  }
}
