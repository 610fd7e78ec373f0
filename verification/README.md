# F1 dashboard service core, modelled in Dafny

This project models the computations inside the dashboard backend's FastF1
service (`backend/services/fastf1_service.py`) that do not depend on the
FastF1 library itself. The library calls are replaced by abstract inputs:
a season schedule, the per-round outcome of loading a race session, and the
current time. The model covers four parts.

- **Championship standings.** These are the driver and constructor tables
  built by `_fetch_driver_standings_sync` and `_fetch_constructor_standings_sync`.
  - Rounds are read in schedule order, and reading stops at the first round
    numbered above a truthy `after_round`.
  - A round whose session failed to load contributes nothing.
  - Each classification row is filed under its driver abbreviation (or its
    team name) in a dictionary kept in insertion order. Points are summed,
    with a missing value counting as 0, and wins (position 1) are counted.
  - The tallies are stable-sorted by points, highest first, and numbered
    from 1.
- **Schedule entries.** This is the per-event part of `_fetch_schedule_sync`.
  - When the race session loaded with a start instant, the entry's date and
    time are the UTC reading of that instant, and its `datetime` is the East
    Africa Time (EAT) reading.
  - Otherwise the entry falls back to the event date at 14:00:00 EAT, or has
    no start at all.
  - Practice and qualifying times are shifted to EAT when they are requested
    and available.
  - The status is `upcoming` when the start lies after now, `done` when it
    does not, and `scheduled` when there is no start.
- **Next race.** This is `get_next_race`.
  - It finds the first race of this season's schedule that starts after now,
    with a countdown split into days, hours, minutes and seconds.
  - Failing that, it returns the first race of next season's schedule.
  - Failing that, it returns an error.
- **EAT conversion.** `_convert_to_eat` adds a fixed three hours, and an
  absent time stays absent.

Files, one module each:

| file | module | contents |
|---|---|---|
| `wrappers.dfy` | `Wrappers` | `Option` |
| `clock.dfy` | `Clock` | instants, the EAT shift, day/time split, countdown |
| `schedule.dfy` | `Schedule` | schedule entries, fallback start, race status |
| `next_race.dfy` | `NextRace` | next-race scan and countdown |
| `results.dfy` | `Results` | result rows, rounds, the `after_round` cut-off |
| `aggregation.dfy` | `Aggregation` | the fold into per-driver or per-team tallies and its reference definition |
| `ranking.dfy` | `Ranking` | the stable descending sort by points |
| `standings.dfy` | `Standings` | driver and constructor tables and their properties |

Time is modelled as integer seconds.
- Instants read on the UTC clock are session start dates.
- Instants read on the EAT wall clock are `datetime` values and "now". The
  source compares naive wall-clock values: it parses `datetime` with its
  `+03:00` suffix removed, and takes now as `datetime.now()` plus three hours.
  That now reads EAT only when the host clock runs on UTC, which the model
  assumes (see "## Left out").
- A calendar date is a day number: the instant divided by 86400, which rounds
  toward minus infinity like Python's `datetime`.

## Model

| member | source | states |
|---|---|---|
| Clock.ToEat | backend/services/fastf1_service.py:27-31 | An absent time stays absent, and shifting to EAT loses nothing: shifting back gives the UTC instant again |
| Clock.EatRoundTrip | backend/services/fastf1_service.py:27-31 | The EAT shift and its inverse undo each other in both orders |
| Clock.EatClockReadsThreeHoursAhead | backend/services/fastf1_service.py:24-30 | On the EAT wall clock the hour is three later modulo 24, minutes and seconds are unchanged, and the date moves forward exactly when UTC reads 21:00 or later |
| Clock.ClockTime | backend/services/fastf1_service.py:93-94 | The `%H:%M:%S` reading of an instant is a valid time of day, and joined with the instant's `%Y-%m-%d` day it gives the instant back |
| Clock.AtSplits | backend/services/fastf1_service.py:99-101 | Joining a day and a valid time, as the fallback start does with 14:00:00, and splitting the instant again gives the same day and time back |
| Clock.CountdownOf | backend/services/fastf1_service.py:502-508 | The countdown has hours < 24, minutes < 60 and seconds < 60, its parts add back up to the total, the total is the gap, and days are non-negative exactly when the gap is |
| Clock.CountdownRoundTrip | backend/services/fastf1_service.py:502-508 | The split is unique: every normalised countdown is the one produced for its own span |
| Schedule.StatusAt | backend/services/fastf1_service.py:127-133 | The status is `scheduled` iff there is no start, `upcoming` iff the start is strictly after now, and `done` iff it is at or before now |
| Schedule.StatusOnlyMovesForward | backend/services/fastf1_service.py:127-133 | As now advances a race can go from upcoming to done but never back, and a race without a start stays scheduled |
| Schedule.RaceEntry | backend/services/fastf1_service.py:74-133 | The entry copies the event's round, name, country and location. With a race-session start, date/time are the UTC reading of it and `datetime` is the same instant on EAT. Without one, the event date at 14:00:00 EAT is used, or no start when the date is missing. Sessions are present iff requested and looked up, each as its EAT time. The status follows the start |
| Schedule.RaceSchedule | backend/services/fastf1_service.py:67-137 | One entry per event in the provider's order, each the entry for its own event. Its status is taken at that event's own clock reading, since line 130 reads the clock inside the loop, after the event's sessions were looked up |
| Schedule.LaterStartsAreUpcoming | backend/services/fastf1_service.py:127-133 | When every clock reading taken while the schedule was built is no later than a given now, every entry starting after that now is marked upcoming |
| NextRace.FirstUpcoming | backend/services/fastf1_service.py:495-511 | It returns the first index whose race has a start strictly after now, skipping races without one, or nothing iff no race qualifies |
| NextRace.FindNextRace | backend/services/fastf1_service.py:495-523 | The result is this season's first race starting after now, with a normalised countdown that reaches its start exactly. Failing that, next season's first race iff that schedule is non-empty. Otherwise an error |
| NextRace.NextRaceFromLookups | backend/services/fastf1_service.py:490-523 | The schedule is built without session times (line 491) before now is read (line 493). The result is the first entry of that schedule starting after now, carrying the status `upcoming`, with a normalised countdown that reaches its start exactly; one is picked iff some entry starts after now. Failing that, next season's first race iff that schedule is non-empty. Otherwise an error |
| Results.ProcessedRounds | backend/services/fastf1_service.py:254-257 | The rounds read are a prefix of the schedule, none of them past the cut-off, and the next round, if any, is past it |
| Results.NoCutOffReadsEveryRound | backend/services/fastf1_service.py:252-257 | With `after_round` None or 0 every round is read |
| Results.FailedRoundContributesNothing | backend/services/fastf1_service.py:259-282 | A round that failed to load adds no rows, the same as a round with an empty classification |
| Results.LoadedRowsAppend | backend/services/fastf1_service.py:254-282 | The rows of consecutive stretches of rounds are the concatenation of each stretch's rows |
| Aggregation.FirstIndex | backend/services/fastf1_service.py:268-275 | The index of the first row filed under a key (no earlier row uses it), or the row count when none is |
| Aggregation.Find | backend/services/fastf1_service.py:268 | The dictionary lookup: the index of the tally with the key, or -1 iff no tally has it |
| Aggregation.AggregateSummarizes | backend/services/fastf1_service.py:263-279 | The fold holds exactly one tally per key that some row uses. Each tally's name and team come from the key's first row, and its points and wins are the reference sums over all rows. Tallies are in order of first appearance |
| Aggregation.AddRowSummarizes | backend/services/fastf1_service.py:264-279 | One more row keeps the tallies exactly right and in first-appearance order |
| Aggregation.AggregateKeepsTotals | backend/services/fastf1_service.py:263-279 | Grouped either way, the tallies' points and wins add up to the points and wins of all rows |
| Aggregation.AddRowKeepsTotals | backend/services/fastf1_service.py:268-279 | One row adds exactly its points and its win to the totals, whether it opens a tally or adds to one |
| Aggregation.RowsSumRoundByRound | backend/services/fastf1_service.py:254-282 | A key's points and wins over all loaded rows equal the sum, round by round, of what each loaded round gave it |
| Aggregation.TallyForSnocPresent | backend/services/fastf1_service.py:268-279 | A key already seen keeps its first row's name and team, and only its points and wins grow |
| Aggregation.TallyForSnocNew | backend/services/fastf1_service.py:268-279 | A key first seen in the new row gets that row's name, team, points and win |
| Ranking.SortByPoints | backend/services/fastf1_service.py:285 | The sort is a permutation of the tallies with points non-increasing |
| Ranking.SortIsStable | backend/services/fastf1_service.py:285 | Tallies with equal points keep their input order |
| Ranking.SortKeepsTotals | backend/services/fastf1_service.py:285 | Sorting changes neither the total points nor the total wins |
| Ranking.InsertShape | backend/services/fastf1_service.py:285 | Inserting a tally places it at its insertion point and shifts the later tallies by one |
| Standings.RankedSummarizes | backend/services/fastf1_service.py:263-289 | The sorted tallies still hold exactly the right tally per key, once each. They are ordered by points, with ties in order of first appearance |
| Standings.DriverStandingsAreRanked | backend/services/fastf1_service.py:285-289 | Positions are 1..n in list order, points never increase down the list, and no driver is listed twice |
| Standings.DriverStandingsSumRows | backend/services/fastf1_service.py:263-279 | A driver's points are the sum of their rows' points in the rounds read (a missing value counting 0), and wins count their position-1 rows. Name and team come from their first row |
| Standings.EveryClassifiedDriverIsListed | backend/services/fastf1_service.py:264-277 | Every driver with a row in the rounds read appears in the table |
| Standings.DriverTiesKeepFirstAppearance | backend/services/fastf1_service.py:285 | Drivers level on points are listed in the order they first appeared |
| Standings.StandingsSumRoundByRound | backend/services/fastf1_service.py:254-282 | Each driver's and each team's points and wins are the sums over the rounds read that loaded, round by round |
| Standings.ConstructorStandingsAreRanked | backend/services/fastf1_service.py:348-352 | Positions are 1..n in list order, points never increase down the list, and no team is listed twice |
| Standings.ConstructorStandingsSumRows | backend/services/fastf1_service.py:328-342 | A team's points and wins are the sums over every row of every one of its drivers in the rounds read |
| Standings.EveryClassifiedTeamIsListed | backend/services/fastf1_service.py:329-340 | Every team with a row in the rounds read appears in the table |
| Standings.ConstructorTiesKeepFirstAppearance | backend/services/fastf1_service.py:348 | Teams level on points are listed in the order they first appeared |
| Standings.RankedKeepsTotals | backend/services/fastf1_service.py:263-285 | Grouped either way, the sorted tallies add up to the points and wins of all the rows read |
| Standings.StandingsConservePointsAndWins | backend/services/fastf1_service.py:245-357 | Each table carries the ranked tallies' points and wins row for row, and those add up to the points scored and races won in the rounds read: nothing is lost or counted twice |

## Left out

- Calls into FastF1 and pandas are not modelled: `get_event_schedule`,
  `get_session`, `session.load` and `iterrows`. Their outcomes are inputs
  instead: a schedule of events, a race-session outcome per event (failed, or
  loaded with or without a start), practice lookups that either fail or
  give four optional dates, and per-round classifications (`None` when
  loading raised).
- The `async` wrappers around the sync fetchers are not modelled. They are
  `run_in_executor` plumbing with logging and re-raising.
- Race results, telemetry, lap times, race info and track status
  (`backend/services/fastf1_service.py:142-228`, `:359-486` and `:528-659`)
  are outside the modelled core. This leaves out real logic in
  `_fetch_results_sync` (lines 171-194): with `latest` it picks the latest
  completed race by date, and it returns error results when no race has
  completed or no round is given. That selection is not modelled.
- `backend/app.py`, `backend/database.py` and `backend/models.py` are not part
  of this model. They are HTTP routing, database declarations and response
  schemas.
- Points are whole numbers rather than floats. Half points are assumed scaled
  to whole units, so sums are exact where float addition would round.
- Instants are whole seconds. Sub-second parts of `datetime` and of the
  countdown's `total_seconds()` are not modelled.
- ISO-8601 formatting (`_format_datetime`, lines 33-37) is not modelled.
  Instants stand in for their text, so the `+03:00` suffix that the
  fallback start carries and the status check strips is implicit.
- Reading the system clock is not modelled. Clock readings are parameters
  on the EAT wall clock, each playing the role of `datetime.now()` plus three
  hours. `Schedule.RaceSchedule` takes one reading per event, because line 130
  runs inside the per-event loop. `get_next_race` takes its own reading at
  line 493. `NextRace.NextRaceFromLookups` requires the per-event readings
  to be no later than the scan's now, as they are when the host clock does
  not go backwards. A clock set back while the schedule is being built is
  not described. `datetime.now()` is the host's local time, so this
  is EAT only when the host clock runs on UTC, and the model assumes it
  does. On a host set to EAT, the source's now runs six hours ahead of UTC
  rather than three. Races would then turn `done`, and be skipped by
  `get_next_race`, three hours before they start. The model does not
  describe that behaviour.
  The current year and the two schedule fetches in `get_next_race` are
  parameters too: this season's and next season's schedules.
- Partial rounds are not modelled. If reading a round's rows raises part
  way through (lines 280-282), the source keeps the rows already added. The
  model treats every round as all or nothing: loaded with its whole
  classification, or failed.
- A schedule fetch that raises is not modelled. Every fetcher that calls
  `get_event_schedule` logs the error and re-raises it (lines 138-140,
  292-294 and 355-357). In `get_next_race`, a raising fetch of next
  season's schedule (line 515) propagates as an exception (lines 524-526)
  rather than becoming the "No upcoming race found" result.
  `NextRace.FindNextRace` returns `NoUpcomingRace` only for an empty
  next-season schedule.
- A failure to parse the `datetime` string in `get_next_race` (line 510) is
  not modelled, since the model holds instants rather than strings.
- `max_round` (lines 252 and 317) is not modelled: it is computed but never
  used.

## Notes

- In `_fetch_schedule_sync`, when the race session loads with a start,
  `date` and `time` are read on the UTC clock while `datetime` is on the EAT
  clock. In the fallback, `date` and `time` are EAT values. The model keeps
  this difference as the code has it: `Schedule.RaceEntry` states both
  readings.
- `get_next_race` takes the first race in schedule order that starts after
  now. It does not sort the schedule by start time, and the model follows
  the code. A schedule whose races are out of chronological order would
  yield the first listed qualifying race, not the earliest.
