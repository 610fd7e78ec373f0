/** Whole-second instants, the East Africa Time (UTC+3) shift, the split of
    an instant into a calendar day and a wall-clock time, and the race
    countdown that splits a gap into days, hours, minutes and seconds. */
module Clock {
  import opened Wrappers

  const SecondsPerMinute: int := 60
  const SecondsPerHour: int := 3600
  const SecondsPerDay: int := 86400

  /** East Africa Time is three hours ahead of UTC, with no daylight saving. */
  const EatOffset: int := 3 * SecondsPerHour

  /** Seconds since the epoch of whichever wall clock the instant is read on. */
  type Instant = int

  /** A wall-clock reading within one day. */
  datatype TimeOfDay = TimeOfDay(hour: int, minute: int, second: int) {

    predicate Valid() {
      0 <= hour < 24 && 0 <= minute < 60 && 0 <= second < 60
    }

    /** Seconds elapsed since midnight. */
    function Seconds(): int {
      hour * SecondsPerHour + minute * SecondsPerMinute + second
    }
  }

  /** The calendar day an instant falls on (days since the epoch). Dafny's
      division is Euclidean, so instants before the epoch fall on negative
      days, as Python's `datetime` has it. */
  function DayOf(t: Instant): int {
    t / SecondsPerDay
  }

  /** The instant at wall-clock time `c` on day `day`. */
  function At(day: int, c: TimeOfDay): Instant {
    day * SecondsPerDay + c.Seconds()
  }

  /** The wall-clock time of an instant, as `strftime('%H:%M:%S')` prints it. */
  function ClockTime(t: Instant): (c: TimeOfDay)
    ensures c.Valid()
    ensures At(DayOf(t), c) == t
  {
    var r := t % SecondsPerDay;
    TimeOfDay(r / SecondsPerHour, (r % SecondsPerHour) / SecondsPerMinute, r % SecondsPerMinute)
  }

  /** Joining a day and a valid time and splitting the instant again gives
      the same day and time back. */
  lemma AtSplits(day: int, c: TimeOfDay)
    requires c.Valid()
    ensures DayOf(At(day, c)) == day && ClockTime(At(day, c)) == c
  {
    var s := c.Seconds();
    assert 0 <= s < SecondsPerDay;
    assert At(day, c) / SecondsPerDay == day && At(day, c) % SecondsPerDay == s;
    assert s / SecondsPerHour == c.hour && s % SecondsPerHour == c.minute * SecondsPerMinute + c.second;
  }

  /** `_convert_to_eat`: a UTC instant read on the East Africa wall clock;
      an absent instant stays absent. */
  function ToEat(utc: Option<Instant>): (eat: Option<Instant>)
    ensures eat.None? <==> utc.None?
    ensures FromEat(eat) == utc
  {
    match utc
    case None => None
    case Some(t) => Some(t + EatOffset)
  }

  /** The inverse shift, from the East Africa wall clock back to UTC. */
  function FromEat(eat: Option<Instant>): (utc: Option<Instant>)
    ensures utc.None? <==> eat.None?
  {
    match eat
    case None => None
    case Some(t) => Some(t - EatOffset)
  }

  /** The conversion loses nothing: it is undone by `FromEat`, in both orders. */
  lemma EatRoundTrip(utc: Option<Instant>, eat: Option<Instant>)
    ensures FromEat(ToEat(utc)) == utc
    ensures ToEat(FromEat(eat)) == eat
  {
  }

  /** The East Africa wall clock reads three hours later than UTC, with the
      same minutes and seconds, and its date moves forward exactly when the
      UTC time is 21:00 or later. */
  lemma EatClockReadsThreeHoursAhead(t: Instant)
    ensures ToEat(Some(t)).Some?
    ensures ClockTime(ToEat(Some(t)).value).hour == (ClockTime(t).hour + 3) % 24
    ensures ClockTime(ToEat(Some(t)).value).minute == ClockTime(t).minute
    ensures ClockTime(ToEat(Some(t)).value).second == ClockTime(t).second
    ensures DayOf(ToEat(Some(t)).value) == DayOf(t) + (if ClockTime(t).hour >= 21 then 1 else 0)
  {
    var e := t + EatOffset;
    var c := ClockTime(t);
    var d := DayOf(t);
    if c.hour < 21 {
      var c' := TimeOfDay(c.hour + 3, c.minute, c.second);
      assert e == At(d, c');
      AtSplits(d, c');
    } else {
      var c' := TimeOfDay(c.hour - 21, c.minute, c.second);
      assert e == At(d + 1, c');
      AtSplits(d + 1, c');
    }
  }

  /** The countdown to a race, as `get_next_race` reports it. */
  datatype Countdown = Countdown(days: int, hours: int, minutes: int, seconds: int, totalSeconds: int)

  /** The span a countdown stands for, rebuilt from its parts. */
  function Span(c: Countdown): int {
    c.days * SecondsPerDay + c.hours * SecondsPerHour + c.minutes * SecondsPerMinute + c.seconds
  }

  predicate Normalized(c: Countdown) {
    0 <= c.hours < 24 && 0 <= c.minutes < 60 && 0 <= c.seconds < 60
  }

  /** A `timedelta` of `gap` seconds as days, hours, minutes and seconds.
      Python normalises a `timedelta` to whole days plus seconds in
      [0, 86400), which is Euclidean division by a day. */
  function CountdownOf(gap: int): (c: Countdown)
    ensures Normalized(c)
    ensures c.totalSeconds == gap && Span(c) == gap
    ensures c.days >= 0 <==> gap >= 0
  {
    var tod := ClockTime(gap);
    Countdown(DayOf(gap), tod.hour, tod.minute, tod.second, gap)
  }

  /** A normalised countdown is the one `CountdownOf` produces for its span:
      the decomposition is unique. */
  lemma CountdownRoundTrip(c: Countdown)
    requires Normalized(c) && c.totalSeconds == Span(c)
    ensures CountdownOf(Span(c)) == c
  {
    var tod := TimeOfDay(c.hours, c.minutes, c.seconds);
    assert Span(c) == At(c.days, tod);
    AtSplits(c.days, tod);
  }
}
