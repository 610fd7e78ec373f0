/** The fold of the standings computation: rows grouped by driver
    abbreviation or by team name, in order of first appearance (a Python
    dict keeps insertion order), each group summing its points and
    counting its wins. */
module Aggregation {
  import opened Wrappers
  import opened Results

  datatype Grouping = ByDriver | ByTeam

  /** The dictionary key a row is filed under. */
  function KeyOf(g: Grouping, row: ResultRow): string {
    match g
    case ByDriver => row.abbreviation
    case ByTeam => row.teamName
  }

  /** One dictionary value: the key, the name and team copied from the
      first row filed under it, and the running points and wins. */
  datatype Tally = Tally(key: string, driverName: string, teamName: string, points: int, wins: nat)

  function WinCount(row: ResultRow): nat {
    if IsWin(row) then 1 else 0
  }

  // Reference definitions, computed from the rows directly.

  /** Sum of the points of the rows filed under `k`. */
  function PointsFor(rows: seq<ResultRow>, g: Grouping, k: string): int {
    if |rows| == 0 then 0
    else (if KeyOf(g, rows[0]) == k then PointsOf(rows[0]) else 0) + PointsFor(rows[1..], g, k)
  }

  /** Number of winning rows filed under `k`. */
  function WinsFor(rows: seq<ResultRow>, g: Grouping, k: string): nat {
    if |rows| == 0 then 0
    else (if KeyOf(g, rows[0]) == k then WinCount(rows[0]) else 0) + WinsFor(rows[1..], g, k)
  }

  /** Index of the first row filed under `k`, or `|rows|` when there is none. */
  function FirstIndex(rows: seq<ResultRow>, g: Grouping, k: string): (i: nat)
    ensures i <= |rows|
    ensures i < |rows| ==> KeyOf(g, rows[i]) == k
    ensures forall j :: 0 <= j < i ==> KeyOf(g, rows[j]) != k
  {
    if |rows| == 0 then 0
    else if KeyOf(g, rows[0]) == k then 0
    else 1 + FirstIndex(rows[1..], g, k)
  }

  /** The tally that key `k`, which some row is filed under, should end with. */
  function TallyFor(rows: seq<ResultRow>, g: Grouping, k: string): Tally
    requires FirstIndex(rows, g, k) < |rows|
  {
    var first := rows[FirstIndex(rows, g, k)];
    Tally(k, first.fullName, first.teamName, PointsFor(rows, g, k), WinsFor(rows, g, k))
  }

  // The fold itself.

  /** The index of the tally with key `k`, or -1: the dictionary lookup. */
  function Find(ts: seq<Tally>, k: string): (i: int)
    ensures -1 <= i < |ts|
    ensures i >= 0 ==> ts[i].key == k
    ensures i < 0 ==> forall j :: 0 <= j < |ts| ==> ts[j].key != k
  {
    if |ts| == 0 then -1
    else if ts[0].key == k then 0
    else
      var j := Find(ts[1..], k);
      if j < 0 then -1 else j + 1
  }

  /** One iteration of the inner loop: a row's first appearance adds a new
      tally; later rows only add to its points and wins. */
  function AddRow(ts: seq<Tally>, g: Grouping, row: ResultRow): seq<Tally> {
    var k := KeyOf(g, row);
    var i := Find(ts, k);
    if i < 0 then
      ts + [Tally(k, row.fullName, row.teamName, PointsOf(row), WinCount(row))]
    else
      ts[i := ts[i].(points := ts[i].points + PointsOf(row), wins := ts[i].wins + WinCount(row))]
  }

  /** The fold over all rows, in order. */
  function Aggregate(rows: seq<ResultRow>, g: Grouping): seq<Tally>
    decreases |rows|
  {
    if |rows| == 0 then []
    else AddRow(Aggregate(rows[..|rows| - 1], g), g, rows[|rows| - 1])
  }

  /** Every tally in `ts` belongs to a key some row uses and is the right one for it. */
  ghost predicate Sound(ts: seq<Tally>, rows: seq<ResultRow>, g: Grouping) {
    forall t :: t in ts ==> FirstIndex(rows, g, t.key) < |rows| && t == TallyFor(rows, g, t.key)
  }

  /** Every key a row uses has its right tally in `ts`. */
  ghost predicate Complete(ts: seq<Tally>, rows: seq<ResultRow>, g: Grouping) {
    forall k :: FirstIndex(rows, g, k) < |rows| ==> TallyFor(rows, g, k) in ts
  }

  /** `ts` holds exactly the right tally for every key the rows use. */
  ghost predicate Summarizes(ts: seq<Tally>, rows: seq<ResultRow>, g: Grouping) {
    Sound(ts, rows, g) && Complete(ts, rows, g)
  }

  /** Tallies appear in the order their keys first appear in the rows. */
  ghost predicate InFirstAppearanceOrder(ts: seq<Tally>, rows: seq<ResultRow>, g: Grouping) {
    forall i, j :: 0 <= i < j < |ts| ==> FirstIndex(rows, g, ts[i].key) < FirstIndex(rows, g, ts[j].key)
  }

  // Effect of one more row on the reference definitions.

  lemma {:induction false} PointsForSnoc(rows: seq<ResultRow>, x: ResultRow, g: Grouping, k: string)
    ensures PointsFor(rows + [x], g, k) == PointsFor(rows, g, k) + (if KeyOf(g, x) == k then PointsOf(x) else 0)
    ensures WinsFor(rows + [x], g, k) == WinsFor(rows, g, k) + (if KeyOf(g, x) == k then WinCount(x) else 0)
  {
    if |rows| == 0 {
      assert (rows + [x])[1..] == [];
    } else {
      assert (rows + [x])[1..] == rows[1..] + [x];
      PointsForSnoc(rows[1..], x, g, k);
    }
  }

  lemma {:induction false} FirstIndexSnoc(rows: seq<ResultRow>, x: ResultRow, g: Grouping, k: string)
    ensures FirstIndex(rows, g, k) < |rows| ==> FirstIndex(rows + [x], g, k) == FirstIndex(rows, g, k)
    ensures FirstIndex(rows, g, k) == |rows| && KeyOf(g, x) == k ==> FirstIndex(rows + [x], g, k) == |rows|
  {
    if |rows| != 0 {
      assert (rows + [x])[1..] == rows[1..] + [x];
      FirstIndexSnoc(rows[1..], x, g, k);
    }
  }

  /** A key no row is filed under has no points and no wins. */
  lemma {:induction false} AbsentKeyScoresNothing(rows: seq<ResultRow>, g: Grouping, k: string)
    requires FirstIndex(rows, g, k) == |rows|
    ensures PointsFor(rows, g, k) == 0 && WinsFor(rows, g, k) == 0
  {
    if |rows| != 0 {
      AbsentKeyScoresNothing(rows[1..], g, k);
    }
  }

  /** A key already present keeps its first row; only its sums grow. */
  lemma TallyForSnocPresent(rows: seq<ResultRow>, x: ResultRow, g: Grouping, k: string)
    requires FirstIndex(rows, g, k) < |rows|
    ensures FirstIndex(rows + [x], g, k) == FirstIndex(rows, g, k)
    ensures TallyFor(rows + [x], g, k) ==
      TallyFor(rows, g, k).(
        points := TallyFor(rows, g, k).points + (if KeyOf(g, x) == k then PointsOf(x) else 0),
        wins := TallyFor(rows, g, k).wins + (if KeyOf(g, x) == k then WinCount(x) else 0))
  {
    FirstIndexSnoc(rows, x, g, k);
    PointsForSnoc(rows, x, g, k);
  }

  /** A key that first appears in the new row gets that row's tally. */
  lemma TallyForSnocNew(rows: seq<ResultRow>, x: ResultRow, g: Grouping)
    requires FirstIndex(rows, g, KeyOf(g, x)) == |rows|
    ensures FirstIndex(rows + [x], g, KeyOf(g, x)) == |rows|
    ensures TallyFor(rows + [x], g, KeyOf(g, x)) ==
      Tally(KeyOf(g, x), x.fullName, x.teamName, PointsOf(x), WinCount(x))
  {
    var k := KeyOf(g, x);
    FirstIndexSnoc(rows, x, g, k);
    PointsForSnoc(rows, x, g, k);
    AbsentKeyScoresNothing(rows, g, k);
  }

  // One step of the fold, element by element. A row whose key is new
  // appends that key's tally; a row whose key is present adds to that
  // tally in place. Either way the tallies stay right, every key keeps a
  // tally, and the order of first appearance is kept.

  /** The rows never used a key the tallies lack. */
  lemma MissingKeyIsUnused(ts: seq<Tally>, rows: seq<ResultRow>, g: Grouping, k: string)
    requires Complete(ts, rows, g) && Find(ts, k) < 0
    ensures FirstIndex(rows, g, k) == |rows|
  {
    if FirstIndex(rows, g, k) < |rows| {
      assert false;
    }
  }

  lemma AddRowSoundAt(ts: seq<Tally>, rows: seq<ResultRow>, g: Grouping, x: ResultRow, j: int)
    requires Summarizes(ts, rows, g) && InFirstAppearanceOrder(ts, rows, g)
    requires 0 <= j < |AddRow(ts, g, x)|
    ensures FirstIndex(rows + [x], g, AddRow(ts, g, x)[j].key) < |rows| + 1
    ensures AddRow(ts, g, x)[j] == TallyFor(rows + [x], g, AddRow(ts, g, x)[j].key)
  {
    var k := KeyOf(g, x);
    var i := Find(ts, k);
    if i < 0 {
      MissingKeyIsUnused(ts, rows, g, k);
      TallyForSnocNew(rows, x, g);
      if j < |ts| {
        assert ts[j] in ts;
        TallyForSnocPresent(rows, x, g, ts[j].key);
      }
    } else {
      assert ts[j] in ts;
      assert j != i ==> ts[j].key != ts[i].key;
      TallyForSnocPresent(rows, x, g, ts[j].key);
    }
  }

  lemma AddRowCompleteAt(ts: seq<Tally>, rows: seq<ResultRow>, g: Grouping, x: ResultRow, k: string)
    requires Summarizes(ts, rows, g)
    requires FirstIndex(rows + [x], g, k) < |rows| + 1
    ensures TallyFor(rows + [x], g, k) in AddRow(ts, g, x)
  {
    var rows', ts' := rows + [x], AddRow(ts, g, x);
    var i := Find(ts, KeyOf(g, x));
    FirstIndexSnoc(rows, x, g, k);
    if i < 0 {
      MissingKeyIsUnused(ts, rows, g, KeyOf(g, x));
      TallyForSnocNew(rows, x, g);
      if k != KeyOf(g, x) {
        assert TallyFor(rows, g, k) in ts;
        TallyForSnocPresent(rows, x, g, k);
      }
    } else if k != KeyOf(g, x) {
      assert TallyFor(rows, g, k) in ts;
      TallyForSnocPresent(rows, x, g, k);
      var j :| 0 <= j < |ts| && ts[j] == TallyFor(rows, g, k);
      assert ts'[j] == ts[j];
    } else {
      assert ts[i] in ts;
      TallyForSnocPresent(rows, x, g, k);
      assert ts'[i] == TallyFor(rows', g, k);
    }
  }

  /** A row never changes the keys already tallied; a new key goes last. */
  lemma AddRowKeys(ts: seq<Tally>, g: Grouping, x: ResultRow)
    ensures |ts| <= |AddRow(ts, g, x)| <= |ts| + 1
    ensures forall j :: 0 <= j < |ts| ==> AddRow(ts, g, x)[j].key == ts[j].key
    ensures |AddRow(ts, g, x)| == |ts| + 1 <==> Find(ts, KeyOf(g, x)) < 0
    ensures |AddRow(ts, g, x)| == |ts| + 1 ==> AddRow(ts, g, x)[|ts|].key == KeyOf(g, x)
  {
  }

  lemma AddRowOrderAt(ts: seq<Tally>, rows: seq<ResultRow>, g: Grouping, x: ResultRow, a: int, b: int)
    requires Summarizes(ts, rows, g) && InFirstAppearanceOrder(ts, rows, g)
    requires 0 <= a < b < |AddRow(ts, g, x)|
    ensures FirstIndex(rows + [x], g, AddRow(ts, g, x)[a].key) < FirstIndex(rows + [x], g, AddRow(ts, g, x)[b].key)
  {
    AddRowKeys(ts, g, x);
    assert ts[a] in ts;
    FirstIndexSnoc(rows, x, g, ts[a].key);
    if b < |ts| {
      assert ts[b] in ts;
      FirstIndexSnoc(rows, x, g, ts[b].key);
    } else {
      MissingKeyIsUnused(ts, rows, g, KeyOf(g, x));
      FirstIndexSnoc(rows, x, g, KeyOf(g, x));
    }
  }

  lemma AddRowSummarizes(ts: seq<Tally>, rows: seq<ResultRow>, g: Grouping, x: ResultRow)
    requires Summarizes(ts, rows, g) && InFirstAppearanceOrder(ts, rows, g)
    ensures Summarizes(AddRow(ts, g, x), rows + [x], g)
    ensures InFirstAppearanceOrder(AddRow(ts, g, x), rows + [x], g)
  {
    var rows', ts' := rows + [x], AddRow(ts, g, x);
    forall t | t in ts'
      ensures FirstIndex(rows', g, t.key) < |rows'| && t == TallyFor(rows', g, t.key)
    {
      var j :| 0 <= j < |ts'| && ts'[j] == t;
      AddRowSoundAt(ts, rows, g, x, j);
    }
    forall k | FirstIndex(rows', g, k) < |rows'|
      ensures TallyFor(rows', g, k) in ts'
    {
      AddRowCompleteAt(ts, rows, g, x, k);
    }
    forall a, b | 0 <= a < b < |ts'|
      ensures FirstIndex(rows', g, ts'[a].key) < FirstIndex(rows', g, ts'[b].key)
    {
      AddRowOrderAt(ts, rows, g, x, a, b);
    }
  }

  /** The fold computes exactly the reference tallies, in order of first
      appearance, one per key. */
  lemma {:induction false} AggregateSummarizes(rows: seq<ResultRow>, g: Grouping)
    ensures Summarizes(Aggregate(rows, g), rows, g)
    ensures InFirstAppearanceOrder(Aggregate(rows, g), rows, g)
    decreases |rows|
  {
    if |rows| != 0 {
      var init := rows[..|rows| - 1];
      AggregateSummarizes(init, g);
      var x := rows[|rows| - 1];
      assert init + [x] == rows;
      AddRowSummarizes(Aggregate(init, g), init, g, x);
    }
  }

  // Totals: the fold neither loses nor double-counts points or wins.

  function TotalPoints(ts: seq<Tally>): int {
    if |ts| == 0 then 0 else ts[0].points + TotalPoints(ts[1..])
  }

  function TotalWins(ts: seq<Tally>): int {
    if |ts| == 0 then 0 else ts[0].wins + TotalWins(ts[1..])
  }

  /** Points scored by all rows, whoever scored them. */
  function RowPoints(rows: seq<ResultRow>): int {
    if |rows| == 0 then 0 else PointsOf(rows[0]) + RowPoints(rows[1..])
  }

  /** Number of winning rows. */
  function RowWins(rows: seq<ResultRow>): int {
    if |rows| == 0 then 0 else WinCount(rows[0]) + RowWins(rows[1..])
  }

  lemma {:induction false} TotalsAppend(a: seq<Tally>, b: seq<Tally>)
    ensures TotalPoints(a + b) == TotalPoints(a) + TotalPoints(b)
    ensures TotalWins(a + b) == TotalWins(a) + TotalWins(b)
  {
    if |a| != 0 {
      assert (a + b)[1..] == a[1..] + b;
      TotalsAppend(a[1..], b);
    } else {
      assert a + b == b;
    }
  }

  lemma {:induction false} TotalsUpdate(ts: seq<Tally>, i: int, t: Tally)
    requires 0 <= i < |ts|
    ensures TotalPoints(ts[i := t]) == TotalPoints(ts) - ts[i].points + t.points
    ensures TotalWins(ts[i := t]) == TotalWins(ts) - ts[i].wins + t.wins
  {
    if i != 0 {
      assert ts[i := t][1..] == ts[1..][i - 1 := t];
      TotalsUpdate(ts[1..], i - 1, t);
    }
  }

  lemma {:induction false} RowTotalsSnoc(rows: seq<ResultRow>, x: ResultRow)
    ensures RowPoints(rows + [x]) == RowPoints(rows) + PointsOf(x)
    ensures RowWins(rows + [x]) == RowWins(rows) + WinCount(x)
  {
    if |rows| != 0 {
      assert (rows + [x])[1..] == rows[1..] + [x];
      RowTotalsSnoc(rows[1..], x);
    } else {
      assert (rows + [x])[1..] == [];
    }
  }

  /** The last row's contribution to the row totals. */
  lemma RowTotalsLast(rows: seq<ResultRow>)
    requires |rows| > 0
    ensures RowPoints(rows) == RowPoints(rows[..|rows| - 1]) + PointsOf(rows[|rows| - 1])
    ensures RowWins(rows) == RowWins(rows[..|rows| - 1]) + WinCount(rows[|rows| - 1])
  {
    assert rows[..|rows| - 1] + [rows[|rows| - 1]] == rows;
    RowTotalsSnoc(rows[..|rows| - 1], rows[|rows| - 1]);
  }

  /** One row adds exactly its points and wins to the tallies' totals,
      whether it opens a new tally or adds to an existing one. */
  lemma AddRowKeepsTotals(ts: seq<Tally>, g: Grouping, x: ResultRow)
    ensures TotalPoints(AddRow(ts, g, x)) == TotalPoints(ts) + PointsOf(x)
    ensures TotalWins(AddRow(ts, g, x)) == TotalWins(ts) + WinCount(x)
  {
    var i := Find(ts, KeyOf(g, x));
    if i < 0 {
      TotalsAppend(ts, [Tally(KeyOf(g, x), x.fullName, x.teamName, PointsOf(x), WinCount(x))]);
    } else {
      TotalsUpdate(ts, i, ts[i].(points := ts[i].points + PointsOf(x), wins := ts[i].wins + WinCount(x)));
    }
  }

  /** Whichever way the rows are grouped, the tallies add up to the points
      and wins of all the rows. */
  lemma {:induction false} AggregateKeepsTotals(rows: seq<ResultRow>, g: Grouping)
    ensures TotalPoints(Aggregate(rows, g)) == RowPoints(rows)
    ensures TotalWins(Aggregate(rows, g)) == RowWins(rows)
    decreases |rows|
  {
    if |rows| != 0 {
      AggregateKeepsTotals(rows[..|rows| - 1], g);
      RowTotalsLast(rows);
      AddRowKeepsTotals(Aggregate(rows[..|rows| - 1], g), g, rows[|rows| - 1]);
    }
  }

  // Round by round: the fold over all rows is the sum of each loaded
  // round's contribution; a round that failed to load contributes nothing.

  /** Points the loaded rounds give key `k`, summed round by round. */
  function PointsOverRounds(rounds: seq<Round>, g: Grouping, k: string): int {
    if |rounds| == 0 then 0
    else
      (match rounds[0].results
       case None => 0
       case Some(rs) => PointsFor(rs, g, k))
      + PointsOverRounds(rounds[1..], g, k)
  }

  /** Wins the loaded rounds give key `k`, counted round by round. */
  function WinsOverRounds(rounds: seq<Round>, g: Grouping, k: string): int {
    if |rounds| == 0 then 0
    else
      (match rounds[0].results
       case None => 0
       case Some(rs) => WinsFor(rs, g, k))
      + WinsOverRounds(rounds[1..], g, k)
  }

  lemma {:induction false} SumsAppend(a: seq<ResultRow>, b: seq<ResultRow>, g: Grouping, k: string)
    ensures PointsFor(a + b, g, k) == PointsFor(a, g, k) + PointsFor(b, g, k)
    ensures WinsFor(a + b, g, k) == WinsFor(a, g, k) + WinsFor(b, g, k)
  {
    if |a| != 0 {
      assert (a + b)[1..] == a[1..] + b;
      SumsAppend(a[1..], b, g, k);
    } else {
      assert a + b == b;
    }
  }

  /** Summing over all loaded rows is summing each loaded round's rows. */
  lemma {:induction false} RowsSumRoundByRound(rounds: seq<Round>, g: Grouping, k: string)
    ensures PointsFor(LoadedRows(rounds), g, k) == PointsOverRounds(rounds, g, k)
    ensures WinsFor(LoadedRows(rounds), g, k) == WinsOverRounds(rounds, g, k)
  {
    if |rounds| != 0 {
      RowsSumRoundByRound(rounds[1..], g, k);
      SumsAppend(rounds[0].results.GetOr([]), LoadedRows(rounds[1..]), g, k);
    }
  }
}
