/** The rows whose gross profit rose or fell most, each with its driver. */
module MomMovers {
  import opened Common
  import opened Mom
  import opened MomDriver
  import opened MomRanking

  datatype Mover = Mover(row: MergedRow, driver: Driver)

  datatype Movers = Movers(gains: seq<Mover>, falls: seq<Mover>)

  /** Rows whose gross profit rose (or fell), in their original order. */
  function Moved(rows: seq<MergedRow>, rose: bool): seq<MergedRow> {
    if rows == [] then []
    else
      var r := rows[|rows| - 1];
      var moved := if rose then r.metrics[GP].change > 0.0 else r.metrics[GP].change < 0.0;
      Moved(rows[..|rows| - 1], rose) + if moved then [r] else []
  }

  function OrderOf(rose: bool): Order {
    if rose then LargestGain else LargestFall
  }

  function Top(merged: seq<MergedRow>, rose: bool, n: int): seq<MergedRow> {
    var sorted := Sorted(OrderOf(rose), Moved(merged, rose));
    sorted[..Taken(|sorted|, n)]
  }

  function WithDrivers(rows: seq<MergedRow>): seq<Mover> {
    seq(|rows|, i requires 0 <= i < |rows| => Mover(rows[i], DriverOf(rows[i])))
  }

  function TopMovers(merged: seq<MergedRow>, n: int): Movers {
    Movers(WithDrivers(Top(merged, true, n)), WithDrivers(Top(merged, false, n)))
  }

  lemma {:induction false} MovedAre(rows: seq<MergedRow>, rose: bool)
    ensures forall r :: r in Moved(rows, rose)
                        <==> r in rows && (if rose then r.metrics[GP].change > 0.0 else r.metrics[GP].change < 0.0)
  {
    if rows != [] {
      MovedAre(rows[..|rows| - 1], rose);
      assert rows == rows[..|rows| - 1] + [rows[|rows| - 1]];
    }
  }

  lemma TopSplits(merged: seq<MergedRow>, rose: bool, n: int) returns (rest: seq<MergedRow>)
    ensures SplitsBest(OrderOf(rose), Moved(merged, rose), Top(merged, rose, n), rest)
    ensures |Top(merged, rose, n)| == Taken(|Moved(merged, rose)|, n)
  {
    var moved := Moved(merged, rose);
    var k := Taken(|Sorted(OrderOf(rose), moved)|, n);
    PrefixIsBest(OrderOf(rose), moved, k);
    rest := Sorted(OrderOf(rose), moved)[k..];
  }

  /** Both lists hold the first `n` of the rows that moved their way, the largest
      moves first, each with its own driver; no row is on both. */
  lemma MoversAreTheLargest(merged: seq<MergedRow>, n: int)
    returns (calmer: seq<MergedRow>, steadier: seq<MergedRow>)
    ensures var t := TopMovers(merged, n);
            && (forall x :: x in t.gains ==>
                  x.row in merged && x.row.metrics[GP].change > 0.0 && x.driver == DriverOf(x.row))
            && (forall x :: x in t.falls ==>
                  x.row in merged && x.row.metrics[GP].change < 0.0 && x.driver == DriverOf(x.row))
    ensures CutsTheSmallest(merged, n, calmer, steadier)
  {
    calmer := TopSplits(merged, true, n);
    steadier := TopSplits(merged, false, n);
    TopAreMoved(merged, true, n);
    TopAreMoved(merged, false, n);
  }

  /** The rows left off each list move no more than those on it. */
  ghost predicate CutsTheSmallest(merged: seq<MergedRow>, n: int, calmer: seq<MergedRow>, steadier: seq<MergedRow>) {
    && SplitsBest(LargestGain, Moved(merged, true), RowsOf(TopMovers(merged, n).gains), calmer)
    && SplitsBest(LargestFall, Moved(merged, false), RowsOf(TopMovers(merged, n).falls), steadier)
  }

  function RowsOf(movers: seq<Mover>): seq<MergedRow> {
    seq(|movers|, i requires 0 <= i < |movers| => movers[i].row)
  }

  lemma TopAreMoved(merged: seq<MergedRow>, rose: bool, n: int)
    ensures RowsOf(WithDrivers(Top(merged, rose, n))) == Top(merged, rose, n)
    ensures forall r :: r in Top(merged, rose, n) ==>
              r in merged && (if rose then r.metrics[GP].change > 0.0 else r.metrics[GP].change < 0.0)
  {
    var moved := Moved(merged, rose);
    var sorted := Sorted(OrderOf(rose), moved);
    MovedAre(merged, rose);
    SortedSorts(OrderOf(rose), moved);
    forall r | r in Top(merged, rose, n) ensures r in moved {
      assert r in sorted;
      assert r in multiset(sorted);
    }
  }

  /** Moved further this way than `q`, or as far under a key not after its own. */
  ghost predicate Further(rose: bool, r: MergedRow, q: MergedRow) {
    || (if rose then r.metrics[GP].change > q.metrics[GP].change else r.metrics[GP].change < q.metrics[GP].change)
    || (r.metrics[GP].change == q.metrics[GP].change && !Less(q.key, r.key))
  }

  lemma NotBeforeIsFurther(rose: bool, r: MergedRow, q: MergedRow)
    requires !Before(OrderOf(rose), q, r)
    ensures Further(rose, r, q)
  {
  }

  /** How often `r` belongs among the rows that moved this way. */
  ghost function Belongs(merged: seq<MergedRow>, rose: bool, r: MergedRow): nat {
    if (if rose then r.metrics[GP].change > 0.0 else r.metrics[GP].change < 0.0) then multiset(merged)[r] else 0
  }

  lemma {:induction false} MovedBelong(merged: seq<MergedRow>, rose: bool, r: MergedRow)
    ensures multiset(Moved(merged, rose))[r] == Belongs(merged, rose, r)
  {
    if merged != [] {
      MovedBelong(merged[..|merged| - 1], rose, r);
      assert merged == merged[..|merged| - 1] + [merged[|merged| - 1]];
    }
  }

  /** Of the rows whose gross profit rose the first `n` are listed, largest rise
      first, of those that fell the first `n`, largest fall first, ties in key
      order; what is cut off moved no further than what is listed. */
  lemma FurthestAreListed(merged: seq<MergedRow>, n: int, rose: bool) returns (cut: seq<MergedRow>)
    ensures var t := TopMovers(merged, n);
            var listed := RowsOf(if rose then t.gains else t.falls);
            && (forall r :: (multiset(listed) + multiset(cut))[r] == Belongs(merged, rose, r))
            && (n >= 0 ==> |listed| == n || (|listed| < n && cut == []))
            && (n < 0 ==> |cut| == -n || (|cut| < -n && listed == []))
            && (forall i, j :: 0 <= i < j < |listed| ==> Further(rose, listed[i], listed[j]))
            && (forall r, q :: r in listed && q in cut ==> Further(rose, r, q))
  {
    cut := TopSplits(merged, rose, n);
    var listed := Top(merged, rose, n);
    TopAreMoved(merged, rose, n);
    forall r ensures (multiset(listed) + multiset(cut))[r] == Belongs(merged, rose, r) {
      MovedBelong(merged, rose, r);
    }
    assert |multiset(listed) + multiset(cut)| == |multiset(Moved(merged, rose))|;
    forall i, j | 0 <= i < j < |listed| ensures Further(rose, listed[i], listed[j]) {
      NotBeforeIsFurther(rose, listed[i], listed[j]);
    }
    forall r, q | r in listed && q in cut ensures Further(rose, r, q) {
      NotBeforeIsFurther(rose, r, q);
    }
  }

  /** Every listed mover's driver is what its own figures say. */
  lemma ListedDrivers(merged: seq<MergedRow>, n: int, x: Mover, v: real, m: real)
    requires x in TopMovers(merged, n).gains || x in TopMovers(merged, n).falls
    requires v == (x.row.metrics[Volume].current - x.row.metrics[Volume].prior) * x.row.metrics[Margin].prior
    requires m == (x.row.metrics[Margin].current - x.row.metrics[Margin].prior) * x.row.metrics[Volume].current
    ensures DrivenBy(x.row, x.driver, v, m)
  {
    DriverMeans(x.row, v, m);
  }

  // ---------------------------------------------------------------------
  // The movers account for the month
  // ---------------------------------------------------------------------

  function ChangeTotal(rows: seq<MergedRow>): real {
    if rows == [] then 0.0 else ChangeTotal(rows[..|rows| - 1]) + rows[|rows| - 1].metrics[GP].change
  }

  lemma {:induction false} MovedChange(rows: seq<MergedRow>)
    ensures ChangeTotal(Moved(rows, true)) + ChangeTotal(Moved(rows, false)) == ChangeTotal(rows)
  {
    if rows != [] {
      var front, r := rows[..|rows| - 1], rows[|rows| - 1];
      MovedChange(front);
      assert (Moved(front, true) + [r])[..|Moved(front, true)|] == Moved(front, true);
      assert (Moved(front, false) + [r])[..|Moved(front, false)|] == Moved(front, false);
      assert Moved(front, true) + [] == Moved(front, true) && Moved(front, false) + [] == Moved(front, false);
    }
  }

  lemma {:induction false} InsertChange(o: Order, rows: seq<MergedRow>, r: MergedRow)
    requires o.Valid()
    ensures ChangeTotal(Insert(o, rows, r)) == ChangeTotal(rows) + r.metrics[GP].change
  {
    if rows != [] {
      var front, last := rows[..|rows| - 1], rows[|rows| - 1];
      if Before(o, r, last) {
        InsertChange(o, front, r);
        assert (Insert(o, front, r) + [last])[..|Insert(o, front, r)|] == Insert(o, front, r);
      } else {
        assert (rows + [r])[..|rows|] == rows;
      }
    } else {
      assert [r][..0] == rows;
    }
  }

  lemma {:induction false} SortedChange(o: Order, rows: seq<MergedRow>)
    requires o.Valid()
    ensures ChangeTotal(Sorted(o, rows)) == ChangeTotal(rows)
    ensures |Sorted(o, rows)| == |rows|
  {
    if rows != [] {
      SortedChange(o, rows[..|rows| - 1]);
      InsertChange(o, Sorted(o, rows[..|rows| - 1]), rows[|rows| - 1]);
      InsertKeepsAll(o, Sorted(o, rows[..|rows| - 1]), rows[|rows| - 1]);
      assert |Sorted(o, rows)| == |multiset(Sorted(o, rows))|;
    }
  }

  lemma {:induction false} ChangeIsDifference(rows: seq<MergedRow>)
    requires forall r :: r in rows ==> Consistent(r)
    ensures ChangeTotal(rows) == RowTotal(rows, GP, Current) - RowTotal(rows, GP, Prior)
  {
    if rows != [] {
      assert rows[|rows| - 1] in rows;
      ChangeIsDifference(rows[..|rows| - 1]);
    }
  }

  lemma {:induction false} MovedFewer(rows: seq<MergedRow>, rose: bool)
    ensures |Moved(rows, rose)| <= |rows|
  {
    if rows != [] {
      MovedFewer(rows[..|rows| - 1], rose);
    }
  }

  lemma TopOfAll(merged: seq<MergedRow>, rose: bool, n: int)
    requires n >= |merged|
    ensures ChangeTotal(Top(merged, rose, n)) == ChangeTotal(Moved(merged, rose))
  {
    var sorted := Sorted(OrderOf(rose), Moved(merged, rose));
    SortedChange(OrderOf(rose), Moved(merged, rose));
    MovedFewer(merged, rose);
    assert sorted[..|sorted|] == sorted;
  }

  lemma MergedChange(prior: Breakdown, current: Breakdown)
    requires IsDict(prior) && IsDict(current)
    ensures ChangeTotal(Merged(prior, current)) == ComputeKpis(Rows(prior), Rows(current))[GP].change
  {
    var keys, merged := SortedKeys(prior + current), Merged(prior, current);
    forall r | r in merged ensures Consistent(r) {
      var i :| 0 <= i < |merged| && merged[i] == r;
      MergeAllAt(keys, i, prior, current);
      MergedIsConsistent(keys[i], prior, current);
    }
    ChangeIsDifference(merged);
    MergeConserves(prior, current, GP, Prior);
    MergeConserves(prior, current, GP, Current);
    TotalsAre(Rows(prior), GP);
    TotalsAre(Rows(current), GP);
  }

  /** Where no mover is cut off, the listed gains and falls add up to the
      gross-profit tile's change. */
  lemma MoversMakeTheChange(prior: Breakdown, current: Breakdown, n: int)
    requires IsDict(prior) && IsDict(current)
    ensures var t := TopMovers(Merged(prior, current), n);
            n >= |Merged(prior, current)| ==>
            ChangeTotal(RowsOf(t.gains)) + ChangeTotal(RowsOf(t.falls))
            == ComputeKpis(Rows(prior), Rows(current))[GP].change
  {
    var merged := Merged(prior, current);
    TopAreMoved(merged, true, n);
    TopAreMoved(merged, false, n);
    if n >= |merged| {
      TopOfAll(merged, true, n);
      TopOfAll(merged, false, n);
    }
    MovedChange(merged);
    MergedChange(prior, current);
  }
}
