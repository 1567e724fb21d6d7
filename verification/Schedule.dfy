/** When the daily digest fires: nextDailyAt, and its effect over a whole run of the daily loop. */
module Schedule {
  import opened Wrappers

  // Instants are nanoseconds since the epoch in UTC, whose days all have the same length.
  const HOUR := 3_600_000_000_000
  const MINUTE := 60_000_000_000
  const DAY := 86_400_000_000_000

  type Clock = c: (nat, nat) | c.0 < 24 && c.1 < 60 witness (0, 0)

  /** Nanoseconds from midnight to the configured time of day. */
  function TimeOfDay(c: Clock): (t: nat)
    ensures t < DAY
  {
    c.0 * HOUR + c.1 * MINUTE
  }

  function StartOfDay(now: int): int {
    now / DAY * DAY
  }

  predicate AtClock(t: int, c: Clock) {
    t % DAY == TimeOfDay(c)
  }

  /** The least instant strictly after now at the given time of day; a day from now if the setting did not parse. */
  ghost predicate IsNext(now: int, clock: Option<Clock>, target: int) {
    match clock
    case None => target == now + DAY
    case Some(c) =>
      && now < target && AtClock(target, c)
      && forall t :: now < t < target ==> !AtClock(t, c)
  }

  /** Instants with the same time of day that are more than k days apart are at least k + 1 days apart. */
  lemma WholeDaysApart(a: int, b: int, k: int)
    requires a % DAY == b % DAY && b > a + DAY * k
    ensures b >= a + DAY * (k + 1)
  {
    var i, j, r := a / DAY, b / DAY, a % DAY;
    assert a == DAY * i + r && b == DAY * j + r;
    assert j > i + k;
  }

  /** A whole number of days later it is the same time of day. */
  lemma SameTimeOfDay(a: int, b: int, k: int)
    requires b == a + DAY * k
    ensures b % DAY == a % DAY
  {
    var i, r := a / DAY, a % DAY;
    assert a == DAY * i + r && b == DAY * (i + k) + r;
  }

  /** The UTC clock reads hour:minute, on the minute; t counts nanoseconds since the epoch. */
  predicate Shows(t: int, hour: int, minute: int) {
    && t / 3_600_000_000_000 % 24 == hour
    && t / 60_000_000_000 % 60 == minute
    && t % 60_000_000_000 == 0
  }

  /** Days, hours, minutes and the rest of an instant. */
  lemma Digits(t: int) returns (d: int, h: int, m: int, r: int)
    ensures 0 <= h < 24 && 0 <= m < 60 && 0 <= r < 60_000_000_000
    ensures t == 86_400_000_000_000 * d + 3_600_000_000_000 * h + 60_000_000_000 * m + r
  {
    var minutes := t / 60_000_000_000;
    var hours := minutes / 60;
    d, h, m, r := hours / 24, hours % 24, minutes % 60, t % 60_000_000_000;
    assert t == 60_000_000_000 * minutes + r && minutes == 60 * hours + m && hours == 24 * d + h;
  }

  lemma DigitsShow(t: int, d: int, h: int, m: int, r: int)
    requires 0 <= h < 24 && 0 <= m < 60 && 0 <= r < 60_000_000_000
    requires t == 86_400_000_000_000 * d + 3_600_000_000_000 * h + 60_000_000_000 * m + r
    ensures t / 3_600_000_000_000 % 24 == h && t / 60_000_000_000 % 60 == m && t % 60_000_000_000 == r
  {
    var hours, minutes := 24 * d + h, 1440 * d + 60 * h + m;
    assert t == 3_600_000_000_000 * hours + (60_000_000_000 * m + r);
    assert t / 3_600_000_000_000 == hours;
    assert t == 60_000_000_000 * minutes + r;
    assert t / 60_000_000_000 == minutes;
    assert minutes == 60 * hours + m;
  }

  /** An instant is at the configured time of day exactly if the clock then reads that hour and minute, no seconds. */
  lemma ClockShows(t: int, c: Clock)
    ensures AtClock(t, c) <==> Shows(t, c.0, c.1)
  {
    var d, h, m, r := Digits(t);
    DigitsShow(t, d, h, m, r);
    var rest := 3_600_000_000_000 * h + 60_000_000_000 * m + r;
    TimeOnDay(t, d, rest);
    SameDigits(h, m, r, c);
  }

  lemma TimeOnDay(t: int, d: int, rest: int)
    requires t == DAY * d + rest && 0 <= rest < DAY
    ensures t % DAY == rest
  {
    assert t / DAY == d;
  }

  lemma SameDigits(h: int, m: int, r: int, c: Clock)
    requires 0 <= h < 24 && 0 <= m < 60 && 0 <= r < 60_000_000_000
    ensures 3_600_000_000_000 * h + 60_000_000_000 * m + r == TimeOfDay(c) <==> h == c.0 && m == c.1 && r == 0
  {
    assert 60_000_000_000 * (60 * h + m) + r == 60_000_000_000 * (60 * c.0 + c.1) ==> 60 * h + m == 60 * c.0 + c.1;
  }

  lemma OnDay(day: int, c: Clock)
    ensures AtClock(day * DAY + TimeOfDay(c), c)
  {
    var t := TimeOfDay(c);
    SameTimeOfDay(t, day * DAY + t, day);
  }

  lemma FirstAfter(now: int, c: Clock, target: int)
    requires AtClock(target, c) && now < target <= now + DAY
    ensures IsNext(now, Some(c), target)
  {
    forall t | now < t < target
      ensures !AtClock(t, c)
    {
      if AtClock(t, c) {
        WholeDaysApart(t, target, 0);
      }
    }
  }

  /** clock is the parsed "15:04" setting, or None where parsing failed. */
  method NextDailyAt(now: int, clock: Option<Clock>) returns (target: int)
    ensures IsNext(now, clock, target)
    ensures now < target <= now + 86_400_000_000_000
    ensures clock.Some? ==> Shows(target, clock.value.0, clock.value.1)
    ensures clock.None? ==> target == now + 86_400_000_000_000
  {
    if clock.None? {
      return now + DAY;
    }
    target := StartOfDay(now) + TimeOfDay(clock.value);
    OnDay(now / DAY, clock.value);
    if !(target > now) {
      target := target + DAY;
      OnDay(now / DAY + 1, clock.value);
    }
    FirstAfter(now, clock.value, target);
    ClockShows(target, clock.value);
  }

  /** The first instant after now at which the clock reads the configured time, and no other. */
  lemma NextIsFirstShown(now: int, c: Clock, target: int)
    ensures IsNext(now, Some(c), target) <==>
      now < target && Shows(target, c.0, c.1) && forall t :: now < t < target ==> !Shows(t, c.0, c.1)
  {
    ClockShows(target, c);
    forall t
      ensures AtClock(t, c) <==> Shows(t, c.0, c.1)
    {
      ClockShows(t, c);
    }
  }

  /** The chosen instant is unique, and within a day. */
  lemma NextIsUnique(now: int, clock: Option<Clock>, a: int, b: int)
    requires IsNext(now, clock, a) && IsNext(now, clock, b)
    ensures a == b && a <= now + DAY
  {
    if clock.Some? {
      NextWithinDay(now, clock.value, a);
    }
  }

  lemma NextWithinDay(now: int, c: Clock, a: int)
    requires IsNext(now, Some(c), a)
    ensures a <= now + DAY
  {
    OnDay(now / DAY, c);
    OnDay(now / DAY + 1, c);
    var t := StartOfDay(now) + TimeOfDay(c);
    assert AtClock(t, c) && AtClock(t + DAY, c);
  }

  /** Scheduling again at or after a target skips as many firings as whole days have passed since it. */
  lemma NextAfterTarget(target: int, now: int, c: Clock, next: int)
    requires AtClock(target, c) && target <= now && IsNext(now, Some(c), next)
    ensures next == target + DAY * ((now - target) / DAY + 1)
    ensures next >= target + DAY && (next - target) % DAY == 0
    ensures next == target + DAY <==> now < target + DAY
  {
    var days, gone := (now - target) / DAY, (now - target) % DAY;
    assert now == target + DAY * days + gone && 0 <= gone < DAY && days >= 0;
    NextSkips(target, now, c, next, days);
    SameTimeOfDay(0, next - target, days + 1);
  }

  lemma NextSkips(target: int, now: int, c: Clock, next: int, days: int)
    requires AtClock(target, c) && target + DAY * days <= now < target + DAY * (days + 1)
    requires IsNext(now, Some(c), next)
    ensures next == target + DAY * (days + 1)
  {
    var t := target + DAY * (days + 1);
    SameTimeOfDay(target, t, days + 1);
    WholeDaysApart(target, next, days);
    assert AtClock(t, c) && now < t <= next;
  }
}
