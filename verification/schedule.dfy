/** One entry of the season schedule as `_fetch_schedule_sync` builds it:
    the race start taken from the race session when it loaded with a date,
    otherwise 14:00 East Africa Time on the event date, and the race status
    derived from that start. */
module Schedule {
  import opened Wrappers
  import opened Clock

  /** A row of the season's event schedule. `eventDate` is a calendar day,
      None when the provider left it empty. */
  datatype Event = Event(roundNumber: int, eventName: string, country: string, location: string, eventDate: Option<int>)

  /** What loading the race session of an event gave: a failure, or a
      session whose start instant (UTC) may be missing. */
  datatype RaceSession = LoadFailed | Loaded(date: Option<Instant>)

  /** UTC start instants of the practice and qualifying sessions, when
      looking them up succeeded. */
  datatype PracticeDates = PracticeDates(fp1: Option<Instant>, fp2: Option<Instant>, fp3: Option<Instant>, qualifying: Option<Instant>)

  /** Lookups made for one event of the schedule. `practice` is None when
      looking the sessions up failed. */
  datatype Lookup = Lookup(event: Event, race: RaceSession, practice: Option<PracticeDates>)

  /** Session start instants on the East Africa wall clock. */
  datatype SessionTimes = SessionTimes(fp1: Option<Instant>, fp2: Option<Instant>, fp3: Option<Instant>, qualifying: Option<Instant>, race: Option<Instant>)

  datatype RaceStatus = Upcoming | Done | Scheduled

  /** A schedule entry. `date` and `time` are read on the UTC clock when
      the race session gave its start, and are the event date and the
      default time otherwise; `datetime` is always on the East Africa
      wall clock. */
  datatype Race = Race(
    round: int,
    raceName: string,
    country: string,
    locality: string,
    circuit: string,
    date: Option<int>,
    time: Option<TimeOfDay>,
    datetime: Option<Instant>,
    datetimeUtc: Option<Instant>,
    sessions: Option<SessionTimes>,
    status: RaceStatus,
    year: int)

  /** Start time assumed, in East Africa Time, when no session gives one. */
  const DefaultRaceTime: TimeOfDay := TimeOfDay(14, 0, 0)

  /** Status of a race starting at `datetime` (East Africa wall clock) seen
      at `now` on the same clock. */
  function StatusAt(datetime: Option<Instant>, now: Instant): (s: RaceStatus)
    ensures s == Scheduled <==> datetime.None?
    ensures s == Upcoming <==> datetime.Some? && now < datetime.value
    ensures s == Done <==> datetime.Some? && datetime.value <= now
  {
    match datetime
    case None => Scheduled
    case Some(t) => if t > now then Upcoming else Done
  }

  /** As time passes a race can only go from upcoming to done, never back,
      and a race without a start stays scheduled. */
  lemma StatusOnlyMovesForward(datetime: Option<Instant>, now: Instant, later: Instant)
    requires now <= later
    ensures StatusAt(datetime, now) == Done ==> StatusAt(datetime, later) == Done
    ensures StatusAt(datetime, later) == Upcoming ==> StatusAt(datetime, now) == Upcoming
    ensures StatusAt(datetime, now) == Scheduled <==> StatusAt(datetime, later) == Scheduled
  {
  }

  /** True when the race session loaded and gave its start instant. */
  predicate HasSessionStart(race: RaceSession) {
    race.Loaded? && race.date.Some?
  }

  /** The schedule entry for one event, with its status seen at `now` on
      the East Africa wall clock. */
  function RaceEntry(year: int, lookup: Lookup, includeSessions: bool, now: Instant): (r: Race)
    ensures r.round == lookup.event.roundNumber && r.raceName == lookup.event.eventName
    ensures r.country == lookup.event.country && r.year == year
    ensures r.locality == lookup.event.location && r.circuit == lookup.event.location
    ensures r.status == StatusAt(r.datetime, now)
    ensures r.datetime.None? <==> !HasSessionStart(lookup.race) && lookup.event.eventDate.None?
    // with a session start: date and time are its UTC reading, datetime its East Africa reading
    ensures HasSessionStart(lookup.race) ==>
      && r.datetimeUtc == lookup.race.date
      && r.datetime.Some? && FromEat(r.datetime) == r.datetimeUtc
      && r.date.Some? && r.time.Some? && r.time.value.Valid()
      && At(r.date.value, r.time.value) == lookup.race.date.value
    // without one: the event date at 14:00:00 East Africa Time
    ensures !HasSessionStart(lookup.race) ==>
      && r.datetimeUtc.None?
      && r.date == lookup.event.eventDate
      && (r.date.Some? <==> r.time.Some?)
      && (r.date.Some? ==>
            && r.time == Some(TimeOfDay(14, 0, 0))
            && r.datetime.Some?
            && DayOf(r.datetime.value) == r.date.value
            && ClockTime(r.datetime.value) == TimeOfDay(14, 0, 0))
    ensures r.sessions.Some? <==> includeSessions && lookup.practice.Some?
    ensures r.sessions.Some? ==>
      && r.sessions.value.race == r.datetime
      && FromEat(r.sessions.value.fp1) == lookup.practice.value.fp1
      && FromEat(r.sessions.value.fp2) == lookup.practice.value.fp2
      && FromEat(r.sessions.value.fp3) == lookup.practice.value.fp3
      && FromEat(r.sessions.value.qualifying) == lookup.practice.value.qualifying
  {
    var ev := lookup.event;
    var (date, time, datetime, datetimeUtc) :=
      if HasSessionStart(lookup.race) then
        var start := lookup.race.date.value;
        (Some(DayOf(start)), Some(ClockTime(start)), ToEat(Some(start)), Some(start))
      else if ev.eventDate.Some? then
        AtSplits(ev.eventDate.value, DefaultRaceTime);
        (ev.eventDate, Some(DefaultRaceTime), Some(At(ev.eventDate.value, DefaultRaceTime)), None)
      else
        (None, None, None, None);
    var sessions :=
      if includeSessions && lookup.practice.Some? then
        var p := lookup.practice.value;
        Some(SessionTimes(ToEat(p.fp1), ToEat(p.fp2), ToEat(p.fp3), ToEat(p.qualifying), datetime))
      else
        None;
    Race(ev.roundNumber, ev.eventName, ev.country, ev.location, ev.location,
         date, time, datetime, datetimeUtc, sessions, StatusAt(datetime, now), year)
  }

  /** The season schedule: one entry per event, in the provider's order.
      The clock is read afresh for every event, after that event's
      sessions were looked up, so `nows[i]` is the reading taken for
      `lookups[i]`. */
  function RaceSchedule(year: int, lookups: seq<Lookup>, includeSessions: bool, nows: seq<Instant>): (races: seq<Race>)
    requires |nows| == |lookups|
    ensures |races| == |lookups|
    ensures forall i :: 0 <= i < |races| ==> races[i] == RaceEntry(year, lookups[i], includeSessions, nows[i])
    ensures forall i :: 0 <= i < |races| ==>
      races[i].round == lookups[i].event.roundNumber && races[i].status == StatusAt(races[i].datetime, nows[i])
  {
    seq(|lookups|, i requires 0 <= i < |lookups| => RaceEntry(year, lookups[i], includeSessions, nows[i]))
  }

  /** When every clock reading taken while the schedule was built is no
      later than `now`, an entry that starts after `now` is marked upcoming. */
  lemma LaterStartsAreUpcoming(year: int, lookups: seq<Lookup>, includeSessions: bool, nows: seq<Instant>, now: Instant)
    requires |nows| == |lookups|
    requires forall i :: 0 <= i < |nows| ==> nows[i] <= now
    ensures var races := RaceSchedule(year, lookups, includeSessions, nows);
      forall i :: 0 <= i < |races| && races[i].datetime.Some? && races[i].datetime.value > now ==>
        races[i].status == Upcoming
  {
    var races := RaceSchedule(year, lookups, includeSessions, nows);
    forall i | 0 <= i < |races| && races[i].datetime.Some? && races[i].datetime.value > now
      ensures races[i].status == Upcoming
    {
      StatusOnlyMovesForward(races[i].datetime, nows[i], now);
    }
  }
}
