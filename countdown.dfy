/**
 * The flash-sale countdown of the home page: four counters that a
 * one-second timer steps down, borrowing from the next larger unit, until
 * all four are zero, where the clock stays.
 */
module Countdown {

  import Seqs

  datatype TimeLeft = TimeLeft(days: int, hours: int, minutes: int, seconds: int)

  /** The duration the page starts counting down from. */
  const Initial := TimeLeft(2, 14, 30, 45)

  /** The time left, in seconds. */
  function TotalSeconds(t: TimeLeft): int
  {
    t.days * 86400 + t.hours * 3600 + t.minutes * 60 + t.seconds
  }

  predicate NonNegative(t: TimeLeft)
  {
    t.days >= 0 && t.hours >= 0 && t.minutes >= 0 && t.seconds >= 0
  }

  /** Hours, minutes and seconds are within a day, an hour and a minute. */
  predicate WellFormed(t: TimeLeft)
  {
    NonNegative(t) && t.hours <= 23 && t.minutes <= 59 && t.seconds <= 59
  }

  predicate IsZero(t: TimeLeft)
  {
    t.days == 0 && t.hours == 0 && t.minutes == 0 && t.seconds == 0
  }

  /** The updater the timer passes to the state setter once a second. */
  function Next(prev: TimeLeft): (next: TimeLeft)
    ensures NonNegative(prev) ==> NonNegative(next)
    ensures WellFormed(prev) ==> WellFormed(next)
    ensures NonNegative(prev) && IsZero(prev) ==> next == prev
    ensures NonNegative(prev) && !IsZero(prev) ==> TotalSeconds(next) == TotalSeconds(prev) - 1
  {
    if prev.seconds > 0 then prev.(seconds := prev.seconds - 1)
    else if prev.minutes > 0 then prev.(minutes := prev.minutes - 1, seconds := 59)
    else if prev.hours > 0 then prev.(hours := prev.hours - 1, minutes := 59, seconds := 59)
    else if prev.days > 0 then prev.(days := prev.days - 1, hours := 23, minutes := 59, seconds := 59)
    else prev
  }

  /** An independent reading of a number of seconds as days, hours, minutes and seconds. */
  function FromSeconds(n: nat): (t: TimeLeft)
    ensures WellFormed(t)
  {
    TimeLeft(n / 86400, (n % 86400) / 3600, (n % 3600) / 60, n % 60)
  }

  /** A well-formed time left is determined by its number of seconds. */
  lemma FromTotalSeconds(t: TimeLeft)
    requires WellFormed(t)
    ensures TotalSeconds(t) >= 0 && FromSeconds(TotalSeconds(t)) == t
  {
    var n := TotalSeconds(t);
    var r2 := t.minutes * 60 + t.seconds;
    var r := t.hours * 3600 + r2;
    DivDay(n, t.days, r);
    DivHour(n, t.days * 24 + t.hours, r2);
    DivHour(r, t.hours, r2);
    DivMinute(n, (t.days * 24 + t.hours) * 60 + t.minutes, t.seconds);
    DivMinute(r2, t.minutes, t.seconds);
  }

  lemma DivDay(n: int, q: int, r: int)
    requires 0 <= r < 86400 && n == q * 86400 + r
    ensures n / 86400 == q && n % 86400 == r
  {
  }

  lemma DivHour(n: int, q: int, r: int)
    requires 0 <= r < 3600 && n == q * 3600 + r
    ensures n / 3600 == q && n % 3600 == r
  {
  }

  lemma DivMinute(n: int, q: int, r: int)
    requires 0 <= r < 60 && n == q * 60 + r
    ensures n / 60 == q && n % 60 == r
  {
  }

  /**
   * A tick of a well-formed clock that has not run out moves it to the
   * time one second earlier; this subsumes each borrowing case.
   */
  lemma NextIsOneSecondEarlier(t: TimeLeft)
    requires WellFormed(t) && !IsZero(t)
    ensures TotalSeconds(t) >= 1 && Next(t) == FromSeconds(TotalSeconds(t) - 1)
  {
    FromTotalSeconds(Next(t));
  }

  /** The clock after `n` ticks. */
  function Ticks(t: TimeLeft, n: nat): TimeLeft
  {
    if n == 0 then t else Next(Ticks(t, n - 1))
  }

  /** Ticking keeps the counters non-negative, and keeps a well-formed clock well formed. */
  lemma {:induction false} TicksKeepShape(t: TimeLeft, n: nat)
    requires NonNegative(t)
    ensures NonNegative(Ticks(t, n))
    ensures WellFormed(t) ==> WellFormed(Ticks(t, n))
  {
    if n > 0 {
      TicksKeepShape(t, n - 1);
    }
  }

  /** After `n` ticks the time left is `n` seconds less, but never below zero, where the clock stops. */
  lemma {:induction false} TicksCountDown(t: TimeLeft, n: nat)
    requires NonNegative(t)
    ensures TotalSeconds(Ticks(t, n)) == if TotalSeconds(t) >= n then TotalSeconds(t) - n else 0
  {
    if n > 0 {
      TicksCountDown(t, n - 1);
      TicksKeepShape(t, n - 1);
      NextCountsDown(Ticks(t, n - 1));
    }
  }

  /** One tick takes one second off, never going below zero. */
  lemma NextCountsDown(t: TimeLeft)
    requires NonNegative(t)
    ensures TotalSeconds(Next(t)) == if TotalSeconds(t) >= 1 then TotalSeconds(t) - 1 else 0
  {
    ZeroIffNoSeconds(t);
  }

  /** For non-negative counters, all four are zero exactly when no second is left. */
  lemma ZeroIffNoSeconds(t: TimeLeft)
    requires NonNegative(t)
    ensures IsZero(t) <==> TotalSeconds(t) == 0
  {
  }

  /** Once enough ticks have passed the clock reads all zeros. */
  lemma TicksReachZero(t: TimeLeft, n: nat)
    requires NonNegative(t) && n >= TotalSeconds(t)
    ensures IsZero(Ticks(t, n))
  {
    TicksCountDown(t, n);
    TicksKeepShape(t, n);
    ZeroIffNoSeconds(Ticks(t, n));
  }

  /** The initial duration is well formed, and the sale ends after 225 045 ticks. */
  lemma InitialState()
    ensures WellFormed(Initial) && TotalSeconds(Initial) == 225045
  {
  }

  /** The countdown state; the page replaces it with `Next` of itself on every tick. */
  class FlashSaleClock {
    var days: int
    var hours: int
    var minutes: int
    var seconds: int

    function State(): TimeLeft
      reads this
    {
      TimeLeft(days, hours, minutes, seconds)
    }

    constructor ()
      ensures State() == Initial && WellFormed(State())
    {
      days, hours, minutes, seconds := Initial.days, Initial.hours, Initial.minutes, Initial.seconds;
    }

    /** One firing of the one-second interval. */
    method Tick()
      modifies this
      ensures State() == Next(old(State()))
      ensures WellFormed(old(State())) ==> WellFormed(State())
    {
      var next := Next(State());
      days, hours, minutes, seconds := next.days, next.hours, next.minutes, next.seconds;
    }

    /** `n` consecutive firings of the interval. */
    method Run(n: nat)
      requires NonNegative(State())
      modifies this
      ensures State() == Ticks(old(State()), n)
      ensures TotalSeconds(State()) == Seqs.Max(TotalSeconds(old(State())) - n, 0)
    {
      var i := 0;
      while i < n
        invariant 0 <= i <= n
        invariant State() == Ticks(old(State()), i)
      {
        Tick();
        i := i + 1;
      }
      TicksCountDown(old(State()), n);
    }
  }
}
