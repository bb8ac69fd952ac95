/**
  Ranked tables and top movers over merged rows: what is shown, what is folded
  into "Other", and the footer.
 */
module MomRanking {
  import opened Common
  import opened Mom

  // ---------------------------------------------------------------------
  // Sorting
  // ---------------------------------------------------------------------

  /** What a table is sorted on, smallest first: a current value, a gain or a
      fall in gross profit, the largest of each first. */
  datatype Order = LargestCurrent(metric: Metric) | LargestGain | LargestFall {
    predicate Valid() {
      LargestCurrent? ==> metric in ROW_METRICS
    }
  }

  function Score(o: Order, r: MergedRow): real
    requires o.Valid()
  {
    match o
    case LargestCurrent(metric) => -r.metrics[metric].current
    case LargestGain => -r.metrics[GP].change
    case LargestFall => r.metrics[GP].change
  }

  /** `a` sorts strictly before `b`: by score, ties by key. */
  predicate Before(o: Order, a: MergedRow, b: MergedRow)
    requires o.Valid()
  {
    Score(o, a) < Score(o, b) || (Score(o, a) == Score(o, b) && Less(a.key, b.key))
  }

  function Insert(o: Order, rows: seq<MergedRow>, r: MergedRow): (s: seq<MergedRow>)
    requires o.Valid()
  {
    if rows == [] then [r]
    else
      var last := rows[|rows| - 1];
      if Before(o, r, last) then Insert(o, rows[..|rows| - 1], r) + [last] else rows + [r]
  }

  /** A stable sort: a row goes after every row it does not sort before. */
  function Sorted(o: Order, rows: seq<MergedRow>): seq<MergedRow>
    requires o.Valid()
  {
    if rows == [] then [] else Insert(o, Sorted(o, rows[..|rows| - 1]), rows[|rows| - 1])
  }

  predicate InOrder(o: Order, rows: seq<MergedRow>)
    requires o.Valid()
  {
    forall i, j :: 0 <= i < j < |rows| ==> !Before(o, rows[j], rows[i])
  }

  lemma NotAfterIsTransitive(o: Order, a: MergedRow, b: MergedRow, c: MergedRow)
    requires o.Valid() && !Before(o, b, a) && !Before(o, c, b)
    ensures !Before(o, c, a)
  {
    LessIsTotal(a.key, b.key);
    LessIsTotal(b.key, c.key);
    LessIsTotal(a.key, c.key);
    if Less(a.key, b.key) && Less(b.key, c.key) {
      LessIsTransitive(a.key, b.key, c.key);
    }
  }

  lemma BeforeIsAsymmetric(o: Order, a: MergedRow, b: MergedRow)
    requires o.Valid() && Before(o, a, b)
    ensures !Before(o, b, a)
  {
    LessIsTotal(a.key, b.key);
  }

  lemma AppendInOrder(o: Order, rows: seq<MergedRow>, r: MergedRow)
    requires o.Valid() && InOrder(o, rows) && forall x :: x in rows ==> !Before(o, r, x)
    ensures InOrder(o, rows + [r])
  {
  }

  lemma {:induction false} InsertKeepsAll(o: Order, rows: seq<MergedRow>, r: MergedRow)
    requires o.Valid()
    ensures multiset(Insert(o, rows, r)) == multiset(rows) + multiset{r}
    ensures forall x :: x in Insert(o, rows, r) <==> x in rows || x == r
  {
    if rows != [] {
      var front, last := rows[..|rows| - 1], rows[|rows| - 1];
      assert rows == front + [last];
      InsertKeepsAll(o, front, r);
    }
  }

  lemma {:induction false} InsertSorts(o: Order, rows: seq<MergedRow>, r: MergedRow)
    requires o.Valid() && InOrder(o, rows)
    ensures InOrder(o, Insert(o, rows, r))
  {
    if rows != [] {
      var front, last := rows[..|rows| - 1], rows[|rows| - 1];
      if Before(o, r, last) {
        InsertSorts(o, front, r);
        InsertKeepsAll(o, front, r);
        BeforeIsAsymmetric(o, r, last);
        assert forall x :: x in front ==> !Before(o, last, x);
        AppendInOrder(o, Insert(o, front, r), last);
      } else {
        forall x | x in rows ensures !Before(o, r, x) {
          var i :| 0 <= i < |rows| && rows[i] == x;
          if i < |front| {
            NotAfterIsTransitive(o, x, last, r);
          }
        }
        AppendInOrder(o, rows, r);
      }
    }
  }

  lemma {:induction false} SortedSorts(o: Order, rows: seq<MergedRow>)
    requires o.Valid()
    ensures InOrder(o, Sorted(o, rows)) && multiset(Sorted(o, rows)) == multiset(rows)
  {
    if rows != [] {
      var front := rows[..|rows| - 1];
      SortedSorts(o, front);
      InsertSorts(o, Sorted(o, front), rows[|rows| - 1]);
      InsertKeepsAll(o, Sorted(o, front), rows[|rows| - 1]);
      assert rows == front + [rows[|rows| - 1]];
    }
  }

  // ---------------------------------------------------------------------
  // Ranked tables
  // ---------------------------------------------------------------------

  /** The number of rows `xs[:n]` takes of `len`; a negative `n` counts from the end. */
  function Taken(len: nat, n: int): (k: nat)
    ensures k <= len
  {
    if n < 0 then (if len + n < 0 then 0 else len + n) else if n > len then len else n
  }

  predicate Carried(rows: seq<MergedRow>, m: Metric) {
    exists r :: r in rows && m in r.metrics
  }

  function AggregateKeys(rows: seq<MergedRow>): set<Metric> {
    {GP, Volume} + set m | m in {NumWon, NumInquiries, NumLost} && Carried(rows, m)
  }

  function SideOf(r: MergedRow, keys: set<Metric>, side: Side): Values {
    map m | m in keys && m in r.metrics :: Some(r.metrics[m].On(side))
  }

  function SidesOf(rows: seq<MergedRow>, keys: set<Metric>, side: Side): seq<Values> {
    seq(|rows|, i requires 0 <= i < |rows| => SideOf(rows[i], keys, side))
  }

  function Aggregate(key: string, rows: seq<MergedRow>): MergedRow {
    var keys := AggregateKeys(rows);
    RowOf(key, Both, SidesOf(rows, keys, Prior), SidesOf(rows, keys, Current), keys)
  }

  predicate EndsWith(s: string, suffix: string) {
    |suffix| <= |s| && s[|s| - |suffix|..] == suffix
  }

  function Singular(noun: string): string {
    if EndsWith(noun, "classes") then noun[..|noun| - 2]
    else if EndsWith(noun, "s") then noun[..|noun| - 1]
    else noun
  }

  function OtherKey(count: nat, noun: string): string {
    "Other (" + Decimal(count) + " " + (if count != 1 then noun else Singular(noun)) + ")"
  }

  /** The "Other" row counts what it folds: in the plural, or of one thing in
      the singular, "classes" losing two letters and any other plural its "s". */
  lemma OtherIsNamed(stem: string, noun: string, k: nat)
    ensures k != 1 ==> OtherKey(k, noun) == "Other (" + Decimal(k) + " " + noun + ")"
    ensures OtherKey(1, stem + "classes") == "Other (1 " + stem + "class)"
    ensures !EndsWith(stem + "s", "classes") ==> OtherKey(1, stem + "s") == "Other (1 " + stem + ")"
    ensures !EndsWith(noun, "s") ==> OtherKey(1, noun) == "Other (1 " + noun + ")"
  {
    var plural := stem + "classes";
    assert Decimal(1) == "1";
    assert plural[|plural| - 7..] == "classes";
    assert plural[..|plural| - 2] == stem + "class";
    assert (stem + "s")[|stem|..] == "s" && (stem + "s")[..|stem|] == stem;
    if EndsWith(noun, "classes") {
      assert noun[|noun| - 1] == noun[|noun| - 7..][6] == 's';
      assert noun[|noun| - 1..] == "s";
    }
    assert "Other (" + "1" + " " + (stem + "class") + ")" == "Other (1 " + stem + "class)";
    assert "Other (" + "1" + " " + stem + ")" == "Other (1 " + stem + ")";
    assert "Other (" + "1" + " " + noun + ")" == "Other (1 " + noun + ")";
  }

  datatype Ranking = Ranking(rows: seq<MergedRow>, other: Option<MergedRow>, footer: MergedRow)

  datatype Answer = Ok(ranking: Ranking) | ValueError

  function Ranked(merged: seq<MergedRow>, metric: Metric, n: int, noun: string): Answer {
    if metric !in ROW_METRICS then ValueError
    else
      var ordered := Sorted(LargestCurrent(metric), merged);
      var k := Taken(|ordered|, n);
      var rest := ordered[k..];
      Ok(Ranking(ordered[..k], if rest != [] then Some(Aggregate(OtherKey(|rest|, noun), rest)) else None,
                 Aggregate("Total", ordered)))
  }

  /** `shown` and `rest` are the rows, in order, split so that no row of the
      second sorts before a row of the first. */
  ghost predicate SplitsBest(o: Order, merged: seq<MergedRow>, shown: seq<MergedRow>, rest: seq<MergedRow>)
    requires o.Valid()
  {
    && multiset(shown) + multiset(rest) == multiset(merged)
    && InOrder(o, shown)
    && forall r, q :: r in shown && q in rest ==> !Before(o, q, r)
  }

  lemma PrefixIsBest(o: Order, merged: seq<MergedRow>, k: nat)
    requires o.Valid() && k <= |Sorted(o, merged)|
    ensures |Sorted(o, merged)| == |merged|
    ensures SplitsBest(o, merged, Sorted(o, merged)[..k], Sorted(o, merged)[k..])
  {
    var ordered := Sorted(o, merged);
    SortedSorts(o, merged);
    assert |ordered| == |multiset(ordered)| == |multiset(merged)| == |merged|;
    assert ordered == ordered[..k] + ordered[k..];
    forall r, q | r in ordered[..k] && q in ordered[k..] ensures !Before(o, q, r) {
      var i :| 0 <= i < k && ordered[i] == r;
      var j :| k <= j < |ordered| && ordered[j] == q;
    }
  }

  /** The shown rows are in order and no omitted row beats one of them, whatever
      the metric and the count; every row is shown or omitted, once; and there is
      an "Other" row, the aggregate of the omitted, just when some are. */
  lemma ShownAreTheBest(merged: seq<MergedRow>, metric: Metric, n: int, noun: string) returns (rest: seq<MergedRow>)
    ensures Ranked(merged, metric, n, noun).ValueError? <==> metric !in ROW_METRICS
    ensures metric in ROW_METRICS ==>
              var t := Ranked(merged, metric, n, noun).ranking;
              && |t.rows| == Taken(|merged|, n) && |rest| == |merged| - |t.rows|
              && SplitsBest(LargestCurrent(metric), merged, t.rows, rest)
              && t.footer.key == "Total"
              && t.other == if rest == [] then None else Some(Aggregate(OtherKey(|rest|, noun), rest))
  {
    rest := [];
    if metric in ROW_METRICS {
      var o := LargestCurrent(metric);
      var k := Taken(|Sorted(o, merged)|, n);
      PrefixIsBest(o, merged, k);
      rest := Sorted(o, merged)[k..];
    }
  }

  /** In a ranking by a metric no row comes before one whose current value is
      larger, or as large under a key that precedes its own. */
  ghost predicate AtLeast(metric: Metric, r: MergedRow, q: MergedRow)
    requires metric in ROW_METRICS
  {
    r.metrics[metric].current > q.metrics[metric].current
    || (r.metrics[metric].current == q.metrics[metric].current && !Less(q.key, r.key))
  }

  lemma NotBeforeIsAtLeast(metric: Metric, r: MergedRow, q: MergedRow)
    requires metric in ROW_METRICS && !Before(LargestCurrent(metric), q, r)
    ensures AtLeast(metric, r, q)
  {
  }

  /** A top-n table shows the n rows with the largest current values, largest
      first, ties in key order; with a negative n, all but as many. */
  lemma LargestAreShown(merged: seq<MergedRow>, metric: Metric, n: int, noun: string) returns (rest: seq<MergedRow>)
    requires metric in ROW_METRICS
    ensures var shown := Ranked(merged, metric, n, noun).ranking.rows;
            && multiset(shown) + multiset(rest) == multiset(merged)
            && (n >= 0 ==> |shown| == if n < |merged| then n else |merged|)
            && (n < 0 ==> |rest| == if -n < |merged| then -n else |merged|)
            && (forall i, j :: 0 <= i < j < |shown| ==> AtLeast(metric, shown[i], shown[j]))
            && (forall r, q :: r in shown && q in rest ==> AtLeast(metric, r, q))
  {
    rest := ShownAreTheBest(merged, metric, n, noun);
    var shown := Ranked(merged, metric, n, noun).ranking.rows;
    forall i, j | 0 <= i < j < |shown| ensures AtLeast(metric, shown[i], shown[j]) {
      NotBeforeIsAtLeast(metric, shown[i], shown[j]);
    }
    forall r, q | r in shown && q in rest ensures AtLeast(metric, r, q) {
      NotBeforeIsAtLeast(metric, r, q);
    }
  }

  // ---------------------------------------------------------------------
  // Footers and tiles
  // ---------------------------------------------------------------------

  lemma {:induction false} InsertTotal(o: Order, rows: seq<MergedRow>, r: MergedRow, m: Metric, side: Side)
    requires o.Valid()
    ensures RowTotal(Insert(o, rows, r), m, side) == RowTotal(rows, m, side) + Part(r, m, side)
  {
    if rows != [] {
      var front, last := rows[..|rows| - 1], rows[|rows| - 1];
      if Before(o, r, last) {
        InsertTotal(o, front, r, m, side);
        assert (Insert(o, front, r) + [last])[..|Insert(o, front, r)|] == Insert(o, front, r);
      } else {
        assert (rows + [r])[..|rows|] == rows;
      }
    } else {
      assert [r][..0] == rows;
    }
  }

  lemma {:induction false} SortedTotal(o: Order, rows: seq<MergedRow>, m: Metric, side: Side)
    requires o.Valid()
    ensures RowTotal(Sorted(o, rows), m, side) == RowTotal(rows, m, side)
  {
    if rows != [] {
      var front := rows[..|rows| - 1];
      SortedTotal(o, front, m, side);
      InsertTotal(o, Sorted(o, front), rows[|rows| - 1], m, side);
    }
  }

  lemma {:induction false} SplitTotal(a: seq<MergedRow>, b: seq<MergedRow>, m: Metric, side: Side)
    ensures RowTotal(a + b, m, side) == RowTotal(a, m, side) + RowTotal(b, m, side)
  {
    if b == [] {
      assert a + b == a;
    } else {
      SplitTotal(a, b[..|b| - 1], m, side);
      assert (a + b)[..|a + b| - 1] == a + b[..|b| - 1];
    }
  }

  lemma {:induction false} SidesTotal(rows: seq<MergedRow>, keys: set<Metric>, m: Metric, side: Side)
    requires m in keys
    ensures Sum(SidesOf(rows, keys, side), m) == RowTotal(rows, m, side)
  {
    if rows != [] {
      SidesTotal(rows[..|rows| - 1], keys, m, side);
      assert SidesOf(rows, keys, side)[..|rows| - 1] == SidesOf(rows[..|rows| - 1], keys, side);
    }
  }

  lemma {:induction false} NotCarriedIsNothing(rows: seq<MergedRow>, m: Metric, side: Side)
    requires !Carried(rows, m)
    ensures RowTotal(rows, m, side) == 0.0
  {
    if rows != [] {
      var front := rows[..|rows| - 1];
      assert forall r :: r in front ==> r in rows;
      assert rows[|rows| - 1] in rows;
      NotCarriedIsNothing(front, m, side);
    }
  }

  lemma AggregateMetric(key: string, rows: seq<MergedRow>, m: Metric)
    ensures var r := Aggregate(key, rows).metrics;
            && (m in r <==> m in ROW_METRICS || (IsCount(m) && Carried(rows, m)))
            && (m in r ==> r[m] == DeltaOf(ColumnTotal(SidesOf(rows, AggregateKeys(rows), Prior), m),
                                           ColumnTotal(SidesOf(rows, AggregateKeys(rows), Current), m)))
  {
    var keys := AggregateKeys(rows);
    RowOfMetric(key, Both, SidesOf(rows, keys, Prior), SidesOf(rows, keys, Current), keys, m);
  }

  /** An aggregate row's columns are its rows' columns added up. */
  lemma AggregateAddsUp(key: string, rows: seq<MergedRow>, m: Metric, side: Side)
    requires m == GP || m == Volume || IsCount(m)
    ensures Part(Aggregate(key, rows), m, side) == RowTotal(rows, m, side)
    ensures Aggregate(key, rows).key == key && Aggregate(key, rows).status.Both?
  {
    AggregateMetric(key, rows, m);
    if m == GP || m == Volume || Carried(rows, m) {
      SidesTotal(rows, AggregateKeys(rows), m, side);
    } else {
      NotCarriedIsNothing(rows, m, side);
    }
  }

  /** An aggregate row's margin is the quotient of its own sums. */
  lemma AggregateMargin(key: string, rows: seq<MergedRow>, side: Side)
    ensures Part(Aggregate(key, rows), Margin, side)
            == Quotient(RowTotal(rows, GP, side), RowTotal(rows, Volume, side))
  {
    AggregateMetric(key, rows, Margin);
    SidesTotal(rows, AggregateKeys(rows), GP, side);
    SidesTotal(rows, AggregateKeys(rows), Volume, side);
  }

  /** Shown rows plus "Other" make the footer, in both months, on every summed metric. */
  lemma ShownPlusOtherIsFooter(merged: seq<MergedRow>, metric: Metric, n: int, noun: string, m: Metric, side: Side)
    requires metric in ROW_METRICS && (m == GP || m == Volume || IsCount(m))
    ensures var t := Ranked(merged, metric, n, noun).ranking;
            RowTotal(t.rows, m, side) + (if t.other.Some? then Part(t.other.value, m, side) else 0.0)
            == Part(t.footer, m, side) == RowTotal(merged, m, side)
  {
    var o := LargestCurrent(metric);
    var ordered := Sorted(o, merged);
    var k := Taken(|ordered|, n);
    var shown, rest := ordered[..k], ordered[k..];
    SortedTotal(o, merged, m, side);
    SplitTotal(shown, rest, m, side);
    assert shown + rest == ordered;
    AggregateAddsUp("Total", ordered, m, side);
    if rest != [] {
      AggregateAddsUp(OtherKey(|rest|, noun), rest, m, side);
    }
  }

  lemma SortedCarries(o: Order, rows: seq<MergedRow>, m: Metric)
    requires o.Valid()
    ensures Carried(Sorted(o, rows), m) <==> Carried(rows, m)
  {
    SortedSorts(o, rows);
    assert forall r :: r in Sorted(o, rows) <==> r in multiset(Sorted(o, rows));
    assert forall r :: r in rows <==> r in multiset(rows);
  }

  /** The counts some row of either month reports. */
  predicate CountReported(prior: Breakdown, current: Breakdown, m: Metric) {
    IsCount(m) && (Reports(prior, m) || Reports(current, m))
  }

  lemma MergeKeysAre(prior: Breakdown, current: Breakdown, m: Metric)
    ensures m in MergeKeys(prior, current) <==> m == GP || m == Volume || CountReported(prior, current, m)
  {
  }

  lemma MergedAtCarries(key: string, prior: Breakdown, current: Breakdown, m: Metric)
    requires IsCount(m)
    ensures m in MergedAt(key, prior, current).metrics <==> CountReported(prior, current, m)
  {
    MergeKeysAre(prior, current, m);
    RowOfMetric(key, StatusOf(key, prior, current), Lookup(prior, key), Lookup(current, key),
                MergeKeys(prior, current), m);
  }

  lemma SomeKey(b: Breakdown)
    requires b != []
    ensures SortedKeys(b) != []
  {
    SortedKeysAreAll(b);
    assert Keyed(b, b[0].key);
  }

  lemma MergedCarries(prior: Breakdown, current: Breakdown, m: Metric)
    requires IsCount(m)
    ensures Carried(Merged(prior, current), m) <==> CountReported(prior, current, m)
  {
    var keys, merged := SortedKeys(prior + current), Merged(prior, current);
    forall i | 0 <= i < |merged| ensures m in merged[i].metrics <==> CountReported(prior, current, m) {
      MergeAllAt(keys, i, prior, current);
      MergedAtCarries(keys[i], prior, current, m);
    }
    if CountReported(prior, current, m) {
      SomeKey(prior + current);
      assert merged[0] in merged;
    }
  }

  function FooterOf(prior: Breakdown, current: Breakdown, o: Order): MergedRow
    requires o.Valid()
  {
    Aggregate("Total", Sorted(o, Merged(prior, current)))
  }

  lemma FooterMetrics(prior: Breakdown, current: Breakdown, o: Order, m: Metric)
    requires o.Valid()
    ensures m in FooterOf(prior, current, o).metrics <==> m in ROW_METRICS || CountReported(prior, current, m)
    ensures m in FooterOf(prior, current, o).metrics ==>
              var d := FooterOf(prior, current, o).metrics[m]; d == DeltaOf(d.prior, d.current)
  {
    var merged := Merged(prior, current);
    AggregateMetric("Total", Sorted(o, merged), m);
    if IsCount(m) {
      SortedCarries(o, merged, m);
      MergedCarries(prior, current, m);
    }
  }

  lemma FooterSum(prior: Breakdown, current: Breakdown, o: Order, m: Metric, side: Side)
    requires IsDict(prior) && IsDict(current) && o.Valid()
    requires m == GP || m == Volume || CountReported(prior, current, m)
    ensures RowTotal(Sorted(o, Merged(prior, current)), m, side)
            == Sum(Rows(if side.Prior? then prior else current), m)
  {
    SortedTotal(o, Merged(prior, current), m, side);
    MergeKeysAre(prior, current, m);
    MergeConserves(prior, current, m, side);
  }

  lemma FooterMetric(prior: Breakdown, current: Breakdown, o: Order, m: Metric, side: Side)
    requires IsDict(prior) && IsDict(current) && o.Valid()
    requires m in ROW_METRICS || CountReported(prior, current, m)
    ensures Part(FooterOf(prior, current, o), m, side) == Totals(Rows(if side.Prior? then prior else current))[m]
  {
    var ordered := Sorted(o, Merged(prior, current));
    if m == Margin {
      FooterSum(prior, current, o, GP, side);
      FooterSum(prior, current, o, Volume, side);
      AggregateMargin("Total", ordered, side);
    } else {
      FooterSum(prior, current, o, m, side);
      AggregateAddsUp("Total", ordered, m, side);
    }
    TotalsAre(Rows(if side.Prior? then prior else current), m);
  }

  /** The footer of any ranking of the merged breakdowns, whatever is shown, is
      the KPI tiles on gross profit, volume, margin and every count either month
      reports, and has no other metric. */
  lemma FooterIsTheTiles(prior: Breakdown, current: Breakdown, metric: Metric, n: int, noun: string, m: Metric)
    requires IsDict(prior) && IsDict(current) && metric in ROW_METRICS
    ensures var footer := Ranked(Merged(prior, current), metric, n, noun).ranking.footer;
            var tiles := ComputeKpis(Rows(prior), Rows(current));
            && (m in footer.metrics <==> m in ROW_METRICS || CountReported(prior, current, m))
            && (m in footer.metrics ==> m in tiles && footer.metrics[m] == tiles[m])
  {
    var o := LargestCurrent(metric);
    FooterMetrics(prior, current, o, m);
    if m in ROW_METRICS || CountReported(prior, current, m) {
      FooterMetric(prior, current, o, m, Prior);
      FooterMetric(prior, current, o, m, Current);
    }
  }
}
