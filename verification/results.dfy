/** Race classifications and the rounds of a season, and which rounds the
    standings computation reads: the schedule in order, stopping at the
    first round numbered above the requested cut-off. */
module Results {
  import opened Wrappers

  /** One row of a race classification. Points are whole units (half points
      scaled up); a missing points or position cell is None. */
  datatype ResultRow = ResultRow(
    abbreviation: string,
    fullName: string,
    teamName: string,
    points: Option<int>,
    position: Option<int>)

  /** A round of the schedule: its number and, when its race session
      loaded with results, the classification. */
  datatype Round = Round(number: int, results: Option<seq<ResultRow>>)

  /** Points a row scores; a missing value counts as 0. */
  function PointsOf(row: ResultRow): int {
    row.points.GetOr(0)
  }

  /** A row is a win when its finishing position is 1. */
  predicate IsWin(row: ResultRow) {
    row.position == Some(1)
  }

  /** The cut-off applies only to a truthy `after_round`: neither None nor 0. */
  predicate CutOffActive(afterRound: Option<int>) {
    afterRound.Some? && afterRound.value != 0
  }

  predicate PastCutOff(round: Round, afterRound: Option<int>) {
    CutOffActive(afterRound) && round.number > afterRound.value
  }

  /** The rounds the standings read: the schedule up to, not including,
      the first round past the cut-off. */
  function ProcessedRounds(rounds: seq<Round>, afterRound: Option<int>): (p: seq<Round>)
    ensures |p| <= |rounds| && p == rounds[..|p|]
    ensures forall i :: 0 <= i < |p| ==> !PastCutOff(p[i], afterRound)
    ensures |p| < |rounds| ==> PastCutOff(rounds[|p|], afterRound)
  {
    if |rounds| == 0 || PastCutOff(rounds[0], afterRound) then []
    else [rounds[0]] + ProcessedRounds(rounds[1..], afterRound)
  }

  /** Without an active cut-off every round is read. */
  lemma {:induction false} NoCutOffReadsEveryRound(rounds: seq<Round>, afterRound: Option<int>)
    requires !CutOffActive(afterRound)
    ensures ProcessedRounds(rounds, afterRound) == rounds
  {
    if |rounds| != 0 {
      NoCutOffReadsEveryRound(rounds[1..], afterRound);
      assert rounds == [rounds[0]] + rounds[1..];
    }
  }

  /** The classification rows of the loaded rounds, in round order; a round
      that failed to load gives none. */
  function LoadedRows(rounds: seq<Round>): seq<ResultRow> {
    if |rounds| == 0 then []
    else rounds[0].results.GetOr([]) + LoadedRows(rounds[1..])
  }

  lemma {:induction false} LoadedRowsAppend(a: seq<Round>, b: seq<Round>)
    ensures LoadedRows(a + b) == LoadedRows(a) + LoadedRows(b)
  {
    if |a| == 0 {
      assert a + b == b;
    } else {
      assert (a + b)[1..] == a[1..] + b;
      LoadedRowsAppend(a[1..], b);
    }
  }

  /** A round that failed to load contributes no rows, exactly as a round
      whose classification is empty. */
  lemma FailedRoundContributesNothing(before: seq<Round>, number: int, after: seq<Round>)
    ensures LoadedRows(before + [Round(number, None)] + after) == LoadedRows(before) + LoadedRows(after)
    ensures LoadedRows(before + [Round(number, None)] + after) == LoadedRows(before + [Round(number, Some([]))] + after)
  {
    LoadedRowsAppend(before + [Round(number, None)], after);
    LoadedRowsAppend(before, [Round(number, None)]);
    LoadedRowsAppend(before + [Round(number, Some([]))], after);
    LoadedRowsAppend(before, [Round(number, Some([]))]);
  }

  /** The rows the standings fold over. */
  function ProcessedRows(rounds: seq<Round>, afterRound: Option<int>): seq<ResultRow> {
    LoadedRows(ProcessedRounds(rounds, afterRound))
  }
}
