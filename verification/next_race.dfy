/** `get_next_race`: the first race of this season's schedule that starts
    after now, with a countdown to it; failing that, the first race of next
    season's schedule; failing that, an error. */
module NextRace {
  import opened Wrappers
  import opened Clock
  import opened Schedule

  /** A race whose start is known and lies strictly after `now`. */
  predicate StartsAfter(race: Race, now: Instant) {
    race.datetime.Some? && race.datetime.value > now
  }

  datatype NextRaceResult =
    | ThisSeason(race: Race, countdown: Countdown)
    | NextSeason(race: Race)
    | NoUpcomingRace

  /** The linear scan: the index of the first race in schedule order that
      starts after `now`. Races without a start are skipped. */
  method FirstUpcoming(schedule: seq<Race>, now: Instant) returns (next: Option<nat>)
    ensures next.Some? ==> next.value < |schedule| && StartsAfter(schedule[next.value], now)
    ensures next.Some? ==> forall j :: 0 <= j < next.value ==> !StartsAfter(schedule[j], now)
    ensures next.None? <==> forall j :: 0 <= j < |schedule| ==> !StartsAfter(schedule[j], now)
  {
    var i := 0;
    while i < |schedule|
      invariant i <= |schedule|
      invariant forall j :: 0 <= j < i ==> !StartsAfter(schedule[j], now)
    {
      if StartsAfter(schedule[i], now) {
        return Some(i);
      }
      i := i + 1;
    }
    return None;
  }

  /** The next race. `thisSeason` and `nextSeason` are the schedules of the
      current and the following year; `now` is read on the East Africa
      wall clock. */
  method FindNextRace(thisSeason: seq<Race>, nextSeason: seq<Race>, now: Instant) returns (r: NextRaceResult)
    ensures r.ThisSeason? ==>
      exists i :: 0 <= i < |thisSeason| && thisSeason[i] == r.race
        && StartsAfter(thisSeason[i], now)
        && forall j :: 0 <= j < i ==> !StartsAfter(thisSeason[j], now)
    ensures r.ThisSeason? ==> StatusAt(r.race.datetime, now) == Upcoming
    ensures r.ThisSeason? ==>
      && Normalized(r.countdown)
      && r.countdown.days >= 0
      && r.countdown.totalSeconds > 0
      && r.race.datetime.Some?
      && now + r.countdown.totalSeconds == r.race.datetime.value
      && Span(r.countdown) == r.countdown.totalSeconds
    ensures !r.ThisSeason? <==> forall j :: 0 <= j < |thisSeason| ==> !StartsAfter(thisSeason[j], now)
    ensures r.NextSeason? <==> !r.ThisSeason? && |nextSeason| > 0
    ensures r.NextSeason? ==> r.race == nextSeason[0]
  {
    var next := FirstUpcoming(thisSeason, now);
    if next.Some? {
      var race := thisSeason[next.value];
      return ThisSeason(race, CountdownOf(race.datetime.value - now));
    }
    if |nextSeason| > 0 {
      return NextSeason(nextSeason[0]);
    }
    return NoUpcomingRace;
  }

  /** `get_next_race` end to end: this season's schedule is built first,
      without session times (line 491 leaves `include_sessions` at its
      default), reading the clock once per event; only then is `now` read
      for the scan, so every reading `nows[i]` is no later than `now`. The
      race it picks therefore carries the status `upcoming`. */
  method NextRaceFromLookups(year: int, lookups: seq<Lookup>, nows: seq<Instant>,
                            nextSeason: seq<Race>, now: Instant) returns (r: NextRaceResult)
    requires |nows| == |lookups|
    requires forall i :: 0 <= i < |nows| ==> nows[i] <= now
    ensures var s := RaceSchedule(year, lookups, false, nows);
      r.ThisSeason? ==>
        exists i :: 0 <= i < |s| && s[i] == r.race
          && StartsAfter(s[i], now)
          && forall j :: 0 <= j < i ==> !StartsAfter(s[j], now)
    ensures r.ThisSeason? ==> r.race.status == Upcoming
    ensures r.ThisSeason? ==>
      && Normalized(r.countdown)
      && r.countdown.totalSeconds > 0
      && r.race.datetime.Some?
      && now + r.countdown.totalSeconds == r.race.datetime.value
    ensures var s := RaceSchedule(year, lookups, false, nows);
      !r.ThisSeason? <==> forall j :: 0 <= j < |s| ==> !StartsAfter(s[j], now)
    ensures r.NextSeason? <==> !r.ThisSeason? && |nextSeason| > 0
    ensures r.NextSeason? ==> r.race == nextSeason[0]
  {
    var schedule := RaceSchedule(year, lookups, false, nows);
    LaterStartsAreUpcoming(year, lookups, false, nows, now);
    r := FindNextRace(schedule, nextSeason, now);
  }
}
