/** `sorted(..., key=points, reverse=True)` on the tallies: a stable sort,
    highest points first, that keeps tied tallies in their input order. */
module Ranking {
  import opened Aggregation

  ghost predicate ByPointsDescending(s: seq<Tally>) {
    forall i, j :: 0 <= i < j < |s| ==> s[i].points >= s[j].points
  }

  /** Where a stable insertion puts `x` into `s`: after every leading tally
      with at least as many points. */
  function InsertPoint(s: seq<Tally>, x: Tally): (k: nat)
    ensures k <= |s|
    ensures forall i :: 0 <= i < k ==> s[i].points >= x.points
    ensures k < |s| ==> s[k].points < x.points
  {
    if |s| == 0 || s[0].points < x.points then 0
    else 1 + InsertPoint(s[1..], x)
  }

  function Insert(s: seq<Tally>, x: Tally): seq<Tally> {
    var k := InsertPoint(s, x);
    s[..k] + [x] + s[k..]
  }

  /** Splicing `x` in between `a` and `b`. */
  lemma Splice(a: seq<Tally>, x: Tally, b: seq<Tally>)
    ensures (a + [x] + b)[|a|] == x
    ensures forall p :: 0 <= p < |a| ==> (a + [x] + b)[p] == (a + b)[p]
    ensures forall p :: |a| < p <= |a| + |b| ==> (a + [x] + b)[p] == (a + b)[p - 1]
    ensures multiset(a + [x] + b) == multiset(a + b) + multiset{x}
  {
    var r := a + [x] + b;
    forall p | |a| < p <= |a| + |b|
      ensures r[p] == (a + b)[p - 1]
    {
      assert r[p] == b[p - |a| - 1];
    }
  }

  /** Where every tally of `Insert(s, x)` comes from. */
  lemma InsertShape(s: seq<Tally>, x: Tally)
    ensures |Insert(s, x)| == |s| + 1
    ensures Insert(s, x)[InsertPoint(s, x)] == x
    ensures forall p :: 0 <= p < InsertPoint(s, x) ==> Insert(s, x)[p] == s[p]
    ensures forall p :: InsertPoint(s, x) < p <= |s| ==> Insert(s, x)[p] == s[p - 1]
    ensures multiset(Insert(s, x)) == multiset(s) + multiset{x}
  {
    var k := InsertPoint(s, x);
    assert s == s[..k] + s[k..];
    Splice(s[..k], x, s[k..]);
  }

  lemma InsertKeepsDescending(s: seq<Tally>, x: Tally)
    requires ByPointsDescending(s)
    ensures ByPointsDescending(Insert(s, x))
  {
    var k := InsertPoint(s, x);
    var r := Insert(s, x);
    InsertShape(s, x);
    forall i, j | 0 <= i < j < |r|
      ensures r[i].points >= r[j].points
    {
      if j < k {
        assert r[i] == s[i] && r[j] == s[j];
      } else if j == k {
        assert r[i] == s[i];
      } else if i < k {
        assert r[i] == s[i] && r[j] == s[j - 1];
      } else if i == k {
        assert r[j] == s[j - 1];
      } else {
        assert r[i] == s[i - 1] && r[j] == s[j - 1];
      }
    }
  }

  /** In a descending sequence, the insertion point splits the result into
      tallies with at least `x`'s points and tallies with fewer. */
  lemma InsertSplits(s: seq<Tally>, x: Tally)
    requires ByPointsDescending(s)
    ensures forall p :: 0 <= p <= InsertPoint(s, x) ==> Insert(s, x)[p].points >= x.points
    ensures forall p :: InsertPoint(s, x) < p <= |s| ==> Insert(s, x)[p].points < x.points
  {
    var k := InsertPoint(s, x);
    var r := Insert(s, x);
    InsertShape(s, x);
    forall p | 0 <= p <= k
      ensures r[p].points >= x.points
    {
      if p < k {
        assert r[p] == s[p];
      }
    }
    forall p | k < p <= |s|
      ensures r[p].points < x.points
    {
      assert r[p] == s[p - 1];
      assert s[p - 1].points <= s[k].points;
    }
  }

  /** Insertion sort, inserting each tally after those that precede it. */
  function SortByPoints(ts: seq<Tally>): (r: seq<Tally>)
    ensures |r| == |ts|
    ensures multiset(r) == multiset(ts)
    ensures ByPointsDescending(r)
  {
    if |ts| == 0 then []
    else
      var init, last := ts[..|ts| - 1], ts[|ts| - 1];
      assert ts == init + [last];
      InsertShape(SortByPoints(init), last);
      InsertKeepsDescending(SortByPoints(init), last);
      Insert(SortByPoints(init), last)
  }

  /** Among tallies with equal points, `rank` increases along `s`. */
  ghost predicate TiesOrderedBy(s: seq<Tally>, rank: Tally -> int) {
    forall i, j :: 0 <= i < j < |s| && s[i].points == s[j].points ==> rank(s[i]) < rank(s[j])
  }

  /** Inserting a tally that ranks after every tally already placed keeps
      ties in rank order. */
  lemma InsertKeepsTieOrder(s: seq<Tally>, x: Tally, rank: Tally -> int)
    requires ByPointsDescending(s) && TiesOrderedBy(s, rank)
    requires forall y :: y in s ==> rank(y) < rank(x)
    ensures TiesOrderedBy(Insert(s, x), rank)
  {
    var k := InsertPoint(s, x);
    var r := Insert(s, x);
    InsertShape(s, x);
    InsertSplits(s, x);
    forall i, j | 0 <= i < j < |r| && r[i].points == r[j].points
      ensures rank(r[i]) < rank(r[j])
    {
      if j < k {
        assert r[i] == s[i] && r[j] == s[j];
      } else if j == k {
        assert r[i] == s[i] && s[i] in s;
      } else if k < i {
        assert r[i] == s[i - 1] && r[j] == s[j - 1];
      } else {
        // i <= k < j: r[i] has at least x's points, r[j] fewer
        assert false;
      }
    }
  }

  /** Stability: if `rank` increases along the input, tied tallies keep
      that order in the output. */
  lemma {:induction false} SortIsStable(ts: seq<Tally>, rank: Tally -> int)
    requires forall i, j :: 0 <= i < j < |ts| ==> rank(ts[i]) < rank(ts[j])
    ensures TiesOrderedBy(SortByPoints(ts), rank)
  {
    if |ts| != 0 {
      var init, x := ts[..|ts| - 1], ts[|ts| - 1];
      var s := SortByPoints(init);
      SortIsStable(init, rank);
      forall y | y in s
        ensures rank(y) < rank(x)
      {
        assert y in multiset(init);
        var q :| 0 <= q < |init| && init[q] == y;
        assert ts[q] == y;
      }
      InsertKeepsTieOrder(s, x, rank);
    }
  }

  /** Inserting a tally adds exactly its points and wins to the totals. */
  lemma InsertKeepsTotals(s: seq<Tally>, x: Tally)
    ensures TotalPoints(Insert(s, x)) == TotalPoints(s) + x.points
    ensures TotalWins(Insert(s, x)) == TotalWins(s) + x.wins
  {
    var k := InsertPoint(s, x);
    var a, b := s[..k], s[k..];
    assert s == a + b;
    TotalsAppend(a, b);
    TotalsAppend(a + [x], b);
    TotalsAppend(a, [x]);
  }

  lemma TotalsSnoc(ts: seq<Tally>)
    requires |ts| > 0
    ensures TotalPoints(ts) == TotalPoints(ts[..|ts| - 1]) + ts[|ts| - 1].points
    ensures TotalWins(ts) == TotalWins(ts[..|ts| - 1]) + ts[|ts| - 1].wins
  {
    assert ts == ts[..|ts| - 1] + [ts[|ts| - 1]];
    TotalsAppend(ts[..|ts| - 1], [ts[|ts| - 1]]);
  }

  /** Sorting only reorders: the totals of points and wins are unchanged. */
  lemma {:induction false} SortKeepsTotals(ts: seq<Tally>)
    ensures TotalPoints(SortByPoints(ts)) == TotalPoints(ts)
    ensures TotalWins(SortByPoints(ts)) == TotalWins(ts)
  {
    if |ts| != 0 {
      var init, x := ts[..|ts| - 1], ts[|ts| - 1];
      SortKeepsTotals(init);
      TotalsSnoc(ts);
      InsertKeepsTotals(SortByPoints(init), x);
    }
  }
}
