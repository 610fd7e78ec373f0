/** `_fetch_driver_standings_sync` and `_fetch_constructor_standings_sync`:
    the rows of the rounds read are folded into one tally per driver (or per
    team), sorted by points with ties kept in order of first appearance,
    and numbered from 1. */
module Standings {
  import opened Wrappers
  import opened Results
  import opened Aggregation
  import opened Ranking

  datatype DriverStanding = DriverStanding(
    driver: string,
    driverName: string,
    team: string,
    points: int,
    wins: nat,
    position: nat)

  datatype ConstructorStanding = ConstructorStanding(team: string, points: int, wins: nat, position: nat)

  /** The tallies in standings order. */
  function Ranked(rows: seq<ResultRow>, g: Grouping): seq<Tally> {
    SortByPoints(Aggregate(rows, g))
  }

  /** The ranked tallies hold every key's right tally, once, highest
      points first, ties in order of first appearance. */
  lemma RankedSummarizes(rows: seq<ResultRow>, g: Grouping)
    ensures Summarizes(Ranked(rows, g), rows, g)
    ensures ByPointsDescending(Ranked(rows, g))
    ensures TiesOrderedBy(Ranked(rows, g), (t: Tally) => FirstIndex(rows, g, t.key))
    ensures forall i, j :: 0 <= i < j < |Ranked(rows, g)| ==> Ranked(rows, g)[i].key != Ranked(rows, g)[j].key
  {
    var a := Aggregate(rows, g);
    var ts := Ranked(rows, g);
    var rank := (t: Tally) => FirstIndex(rows, g, t.key);
    AggregateSummarizes(rows, g);
    assert forall t :: t in ts <==> t in a by {
      assert multiset(ts) == multiset(a);
      forall t ensures t in ts <==> t in a {
        assert t in ts <==> t in multiset(ts);
        assert t in a <==> t in multiset(a);
      }
    }
    SortIsStable(a, rank);
    forall i, j | 0 <= i < j < |ts|
      ensures ts[i].key != ts[j].key
    {
      assert ts[i] in ts && ts[j] in ts;
      assert ts[i] == TallyFor(rows, g, ts[i].key) && ts[j] == TallyFor(rows, g, ts[j].key);
      if ts[i].points == ts[j].points {
        assert rank(ts[i]) < rank(ts[j]);
      }
    }
  }

  /** Each ranked tally is the right one for its key. */
  lemma RankedContents(rows: seq<ResultRow>, g: Grouping)
    ensures var ts := Ranked(rows, g);
      forall i :: 0 <= i < |ts| ==>
        FirstIndex(rows, g, ts[i].key) < |rows| && ts[i] == TallyFor(rows, g, ts[i].key)
  {
    var ts := Ranked(rows, g);
    RankedSummarizes(rows, g);
    forall i | 0 <= i < |ts|
      ensures FirstIndex(rows, g, ts[i].key) < |rows| && ts[i] == TallyFor(rows, g, ts[i].key)
    {
      assert ts[i] in ts;
    }
  }

  /** Every key a row uses has a ranked tally. */
  lemma RankedCoversKeys(rows: seq<ResultRow>, g: Grouping)
    ensures var ts := Ranked(rows, g);
      forall r :: 0 <= r < |rows| ==> exists i :: 0 <= i < |ts| && ts[i].key == KeyOf(g, rows[r])
  {
    var ts := Ranked(rows, g);
    RankedSummarizes(rows, g);
    forall r | 0 <= r < |rows|
      ensures exists i :: 0 <= i < |ts| && ts[i].key == KeyOf(g, rows[r])
    {
      var k := KeyOf(g, rows[r]);
      assert FirstIndex(rows, g, k) <= r;
      assert TallyFor(rows, g, k) in ts;
      var i :| 0 <= i < |ts| && ts[i] == TallyFor(rows, g, k);
      assert ts[i].key == k;
    }
  }

  /** The standings as `_fetch_driver_standings_sync` returns them. */
  function DriverStandings(rounds: seq<Round>, afterRound: Option<int>): seq<DriverStanding> {
    var ts := Ranked(ProcessedRows(rounds, afterRound), ByDriver);
    seq(|ts|, i requires 0 <= i < |ts| =>
      DriverStanding(ts[i].key, ts[i].driverName, ts[i].teamName, ts[i].points, ts[i].wins, i + 1))
  }

  /** The standings as `_fetch_constructor_standings_sync` returns them. */
  function ConstructorStandings(rounds: seq<Round>, afterRound: Option<int>): seq<ConstructorStanding> {
    var ts := Ranked(ProcessedRows(rounds, afterRound), ByTeam);
    seq(|ts|, i requires 0 <= i < |ts| => ConstructorStanding(ts[i].key, ts[i].points, ts[i].wins, i + 1))
  }

  // Driver standings.

  /** Positions number the list from 1; points never increase down the
      list; no driver is listed twice. */
  lemma DriverStandingsAreRanked(rounds: seq<Round>, afterRound: Option<int>)
    ensures var st := DriverStandings(rounds, afterRound);
      && (forall i :: 0 <= i < |st| ==> st[i].position == i + 1)
      && (forall i, j :: 0 <= i < j < |st| ==> st[i].points >= st[j].points)
      && (forall i, j :: 0 <= i < j < |st| ==> st[i].driver != st[j].driver)
  {
    RankedSummarizes(ProcessedRows(rounds, afterRound), ByDriver);
  }

  /** A driver's standing sums the points and counts the wins of all that
      driver's rows in the rounds read, and takes the name and team of the
      driver's first row. */
  lemma DriverStandingsSumRows(rounds: seq<Round>, afterRound: Option<int>)
    ensures var rows, st := ProcessedRows(rounds, afterRound), DriverStandings(rounds, afterRound);
      forall i :: 0 <= i < |st| ==>
        var first := FirstIndex(rows, ByDriver, st[i].driver);
        && first < |rows|
        && st[i].driverName == rows[first].fullName
        && st[i].team == rows[first].teamName
        && st[i].points == PointsFor(rows, ByDriver, st[i].driver)
        && st[i].wins == WinsFor(rows, ByDriver, st[i].driver)
  {
    RankedContents(ProcessedRows(rounds, afterRound), ByDriver);
  }

  /** Every driver with a row in the rounds read is listed. */
  lemma EveryClassifiedDriverIsListed(rounds: seq<Round>, afterRound: Option<int>)
    ensures var rows, st := ProcessedRows(rounds, afterRound), DriverStandings(rounds, afterRound);
      forall r :: 0 <= r < |rows| ==> exists i :: 0 <= i < |st| && st[i].driver == rows[r].abbreviation
  {
    var rows, st := ProcessedRows(rounds, afterRound), DriverStandings(rounds, afterRound);
    var ts := Ranked(rows, ByDriver);
    RankedCoversKeys(rows, ByDriver);
    forall r | 0 <= r < |rows|
      ensures exists i :: 0 <= i < |st| && st[i].driver == rows[r].abbreviation
    {
      var i :| 0 <= i < |ts| && ts[i].key == KeyOf(ByDriver, rows[r]);
      assert st[i].driver == rows[r].abbreviation;
    }
  }

  /** Drivers level on points are listed in the order they first appear. */
  lemma DriverTiesKeepFirstAppearance(rounds: seq<Round>, afterRound: Option<int>)
    ensures var rows, st := ProcessedRows(rounds, afterRound), DriverStandings(rounds, afterRound);
      forall i, j :: 0 <= i < j < |st| && st[i].points == st[j].points ==>
        FirstIndex(rows, ByDriver, st[i].driver) < FirstIndex(rows, ByDriver, st[j].driver)
  {
    RankedSummarizes(ProcessedRows(rounds, afterRound), ByDriver);
  }

  /** Equivalently, round by round: a standing's points and wins are the
      sums of what each round read and loaded gave that driver or team. */
  lemma StandingsSumRoundByRound(rounds: seq<Round>, afterRound: Option<int>)
    ensures var read, st := ProcessedRounds(rounds, afterRound), DriverStandings(rounds, afterRound);
      forall i :: 0 <= i < |st| ==>
        && st[i].points == PointsOverRounds(read, ByDriver, st[i].driver)
        && st[i].wins == WinsOverRounds(read, ByDriver, st[i].driver)
    ensures var read, st := ProcessedRounds(rounds, afterRound), ConstructorStandings(rounds, afterRound);
      forall i :: 0 <= i < |st| ==>
        && st[i].points == PointsOverRounds(read, ByTeam, st[i].team)
        && st[i].wins == WinsOverRounds(read, ByTeam, st[i].team)
  {
    var read := ProcessedRounds(rounds, afterRound);
    DriverStandingsSumRows(rounds, afterRound);
    ConstructorStandingsSumRows(rounds, afterRound);
    var ds, cs := DriverStandings(rounds, afterRound), ConstructorStandings(rounds, afterRound);
    forall i | 0 <= i < |ds|
      ensures ds[i].points == PointsOverRounds(read, ByDriver, ds[i].driver)
      ensures ds[i].wins == WinsOverRounds(read, ByDriver, ds[i].driver)
    {
      RowsSumRoundByRound(read, ByDriver, ds[i].driver);
    }
    forall i | 0 <= i < |cs|
      ensures cs[i].points == PointsOverRounds(read, ByTeam, cs[i].team)
      ensures cs[i].wins == WinsOverRounds(read, ByTeam, cs[i].team)
    {
      RowsSumRoundByRound(read, ByTeam, cs[i].team);
    }
  }

  // Constructor standings.

  /** Positions number the list from 1; points never increase down the
      list; no team is listed twice. */
  lemma ConstructorStandingsAreRanked(rounds: seq<Round>, afterRound: Option<int>)
    ensures var st := ConstructorStandings(rounds, afterRound);
      && (forall i :: 0 <= i < |st| ==> st[i].position == i + 1)
      && (forall i, j :: 0 <= i < j < |st| ==> st[i].points >= st[j].points)
      && (forall i, j :: 0 <= i < j < |st| ==> st[i].team != st[j].team)
  {
    RankedSummarizes(ProcessedRows(rounds, afterRound), ByTeam);
  }

  /** A team's standing sums the points and counts the wins of every row of
      every one of its drivers in the rounds read. */
  lemma ConstructorStandingsSumRows(rounds: seq<Round>, afterRound: Option<int>)
    ensures var rows, st := ProcessedRows(rounds, afterRound), ConstructorStandings(rounds, afterRound);
      forall i :: 0 <= i < |st| ==>
        && FirstIndex(rows, ByTeam, st[i].team) < |rows|
        && st[i].points == PointsFor(rows, ByTeam, st[i].team)
        && st[i].wins == WinsFor(rows, ByTeam, st[i].team)
  {
    RankedContents(ProcessedRows(rounds, afterRound), ByTeam);
  }

  /** Every team with a row in the rounds read is listed. */
  lemma EveryClassifiedTeamIsListed(rounds: seq<Round>, afterRound: Option<int>)
    ensures var rows, st := ProcessedRows(rounds, afterRound), ConstructorStandings(rounds, afterRound);
      forall r :: 0 <= r < |rows| ==> exists i :: 0 <= i < |st| && st[i].team == rows[r].teamName
  {
    var rows, st := ProcessedRows(rounds, afterRound), ConstructorStandings(rounds, afterRound);
    var ts := Ranked(rows, ByTeam);
    RankedCoversKeys(rows, ByTeam);
    forall r | 0 <= r < |rows|
      ensures exists i :: 0 <= i < |st| && st[i].team == rows[r].teamName
    {
      var i :| 0 <= i < |ts| && ts[i].key == KeyOf(ByTeam, rows[r]);
      assert st[i].team == rows[r].teamName;
    }
  }

  /** Teams level on points are listed in the order they first appear. */
  lemma ConstructorTiesKeepFirstAppearance(rounds: seq<Round>, afterRound: Option<int>)
    ensures var rows, st := ProcessedRows(rounds, afterRound), ConstructorStandings(rounds, afterRound);
      forall i, j :: 0 <= i < j < |st| && st[i].points == st[j].points ==>
        FirstIndex(rows, ByTeam, st[i].team) < FirstIndex(rows, ByTeam, st[j].team)
  {
    RankedSummarizes(ProcessedRows(rounds, afterRound), ByTeam);
  }

  // Both tables account for every point and every win exactly once.

  /** Grouped either way, the ranked tallies add up to the points and wins
      of all the rows. */
  lemma RankedKeepsTotals(rows: seq<ResultRow>, g: Grouping)
    ensures TotalPoints(Ranked(rows, g)) == RowPoints(rows)
    ensures TotalWins(Ranked(rows, g)) == RowWins(rows)
  {
    AggregateKeepsTotals(rows, g);
    SortKeepsTotals(Aggregate(rows, g));
  }

  /** The driver table and the constructor table are the ranked tallies
      row for row, and those tallies add up to the points scored and the
      races won in the rounds read. */
  lemma StandingsConservePointsAndWins(rounds: seq<Round>, afterRound: Option<int>)
    ensures var rows, st, ts := ProcessedRows(rounds, afterRound), DriverStandings(rounds, afterRound), Ranked(ProcessedRows(rounds, afterRound), ByDriver);
      && |st| == |ts|
      && (forall i :: 0 <= i < |st| ==> st[i].points == ts[i].points && st[i].wins == ts[i].wins)
      && TotalPoints(ts) == RowPoints(rows) && TotalWins(ts) == RowWins(rows)
    ensures var rows, st, ts := ProcessedRows(rounds, afterRound), ConstructorStandings(rounds, afterRound), Ranked(ProcessedRows(rounds, afterRound), ByTeam);
      && |st| == |ts|
      && (forall i :: 0 <= i < |st| ==> st[i].points == ts[i].points && st[i].wins == ts[i].wins)
      && TotalPoints(ts) == RowPoints(rows) && TotalWins(ts) == RowWins(rows)
  {
    var rows := ProcessedRows(rounds, afterRound);
    RankedKeepsTotals(rows, ByDriver);
    RankedKeepsTotals(rows, ByTeam);
  }
}
