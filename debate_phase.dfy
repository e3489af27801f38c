/** components/DebatePhase.tsx: the debate countdown. Each run of the timer
    effect either takes one second off while the timer is active and time is
    left, or switches the timer off once the time is up; a minute can be
    added at any moment, and the end-debate button is always there. */
module DebatePhase {
  import opened Decimal

  /** One run of the effect: `(timeLeft, isActive)` afterwards. */
  function Tick(timeLeft: int, isActive: bool): (int, bool)
  {
    if isActive && timeLeft > 0 then (timeLeft - 1, isActive)
    else if timeLeft == 0 then (timeLeft, false)
    else (timeLeft, isActive)
  }

  /** `k` runs of the effect in a row. */
  function Ticks(timeLeft: int, isActive: bool, k: nat): (int, bool)
  {
    if k == 0 then (timeLeft, isActive)
    else
      var (t, a) := Tick(timeLeft, isActive);
      Ticks(t, a, k - 1)
  }

  /** An active countdown from `t` seconds shows `t - k` after `k <= t`
      seconds, and from then on stays at 0, switched off. */
  lemma {:induction false} CountsDown(t: nat, k: nat)
    ensures k <= t ==> Ticks(t, true, k) == (t - k, true)
    ensures k > t ==> Ticks(t, true, k) == (0, false)
  {
    if k > 0 {
      if t > 0 {
        CountsDown(t - 1, k - 1);
      } else {
        Stopped(k - 1);
      }
    }
  }

  /** Once the time is up and the timer is off, nothing moves. */
  lemma {:induction false} Stopped(k: nat)
    ensures Ticks(0, false, k) == (0, false)
  {
    if k > 0 {
      Stopped(k - 1);
    }
  }

  /** The timer is running whenever time is left: a clock that is running
      or at zero stays so under any number of effect runs. */
  lemma {:induction false} RunningUntilZero(t: nat, a: bool, k: nat)
    requires t == 0 || a
    ensures Ticks(t, a, k).0 >= 0
    ensures Ticks(t, a, k).0 == 0 || Ticks(t, a, k).1
  {
    if k > 0 {
      var (t', a') := Tick(t, a);
      RunningUntilZero(t', a', k - 1);
    }
  }

  /** The seconds, zero-padded to two digits. */
  function TwoDigits(n: nat): (s: string)
    requires n < 60
    ensures |s| == 2 && AllDigits(s) && ParseNat(s) == n
  {
    ParseNatToString(n);
    if n < 10 then
      var d := NatToString(n);
      assert ParseNat(['0']) == 0;
      assert ['0', d[0]][..1] == ['0'];
      ['0'] + d
    else NatToString(n)
  }

  /** `formattedTime`: `${Math.floor(t / 60)}:${t % 60 < 10 ? '0' : ''}${t % 60}`. */
  function FormatTime(t: nat): string
  {
    NatToString(t / 60) + ":" + TwoDigits(t % 60)
  }

  /** The display reads back: minutes before the colon, two digits of seconds
      below 60 after it, and together they give the time left. */
  lemma FormatTimeReadsBack(t: nat)
    ensures var s := FormatTime(t);
            && |s| >= 4 && s[|s| - 3] == ':'
            && AllDigits(s[..|s| - 3]) && AllDigits(s[|s| - 2..])
            && ParseNat(s[|s| - 2..]) < 60
            && ParseNat(s[..|s| - 3]) * 60 + ParseNat(s[|s| - 2..]) == t
  {
    var m := NatToString(t / 60);
    var sec := TwoDigits(t % 60);
    var s := FormatTime(t);
    assert s[..|s| - 3] == m;
    assert s[|s| - 2..] == sec;
    ParseNatToString(t / 60);
  }

  class DebateTimer {
    const timerDuration: nat
    var timeLeft: int
    var isActive: bool

    /** The countdown never goes below zero, and the timer only stops at zero. */
    ghost predicate Valid()
      reads this
    {
      timeLeft >= 0 && (timeLeft == 0 || isActive)
    }

    /** The timer starts at the debate length, running. */
    constructor (timerDuration: nat)
      ensures Valid()
      ensures this.timerDuration == timerDuration && timeLeft == timerDuration && isActive
    {
      this.timerDuration := timerDuration;
      timeLeft := timerDuration;
      isActive := true;
    }

    /** One run of the effect: a second off while active with time left;
        switched off at 0; otherwise nothing. */
    method Step()
      requires Valid()
      modifies this`timeLeft, this`isActive
      ensures Valid()
      ensures (timeLeft, isActive) == Tick(old(timeLeft), old(isActive))
      ensures timeLeft == old(timeLeft) - 1 <==> old(isActive) && old(timeLeft) > 0
      ensures timeLeft != old(timeLeft) - 1 ==> timeLeft == old(timeLeft)
      ensures old(timeLeft) == 0 ==> !isActive
    {
      if isActive && timeLeft > 0 {
        timeLeft := timeLeft - 1;
      } else if timeLeft == 0 {
        isActive := false;
      }
    }

    /** `addMinute`: exactly sixty seconds more, and the timer runs again. */
    method AddMinute()
      requires Valid()
      modifies this`timeLeft, this`isActive
      ensures Valid()
      ensures timeLeft == old(timeLeft) + 60 && isActive
    {
      timeLeft := timeLeft + 60;
      isActive := true;
    }

    /** The clock shown. */
    method Display() returns (s: string)
      requires Valid()
      ensures s == FormatTime(timeLeft)
      ensures |s| >= 4 && s[|s| - 3] == ':'
    {
      FormatTimeReadsBack(timeLeft);
      s := FormatTime(timeLeft);
    }
  }
}
