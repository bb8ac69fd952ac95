/**
  Month-over-month arithmetic: two months' breakdowns are merged row by row, and
  every total (the KPI tiles, a ranked table's "Other" row and its footer) goes
  through the same sums, with margins and win rates recomputed from them. Sums
  are exact, so their order does not matter.
 */
module Mom {
  import opened Common

  datatype Metric = GP | Volume | Margin | NumWon | NumInquiries | NumLost | WinRate | Unknown(name: string)

  const COUNT_METRICS := [NumWon, NumInquiries, NumLost]

  predicate IsCount(m: Metric) {
    m == NumWon || m == NumInquiries || m == NumLost
  }

  const SUM_METRICS := {GP, Volume, NumWon, NumInquiries, NumLost}
  const KPI_METRICS := {Volume, GP, Margin, NumWon, NumInquiries, NumLost, WinRate}
  const ROW_METRICS := {GP, Volume, Margin}

  function Abs(x: real): (a: real)
    ensures a >= 0.0 && (a == x || a == -x)
  {
    if x < 0.0 then -x else x
  }

  datatype Side = Prior | Current

  datatype Delta = Delta(prior: real, current: real, change: real, pctChange: Option<real>) {
    function On(side: Side): real {
      if side.Prior? then prior else current
    }
  }

  /** The zero-base rule: a percentage is given exactly where there is a base to
      measure against, and has the sign of the change. */
  function DeltaOf(prior: real, current: real): (d: Delta)
    ensures d.prior == prior && d.prior + d.change == d.current == current
    ensures d.pctChange.None? <==> prior == 0.0
    ensures d.pctChange.Some? ==> d.pctChange.value * Abs(prior) == 100.0 * d.change
  {
    var change := current - prior;
    Delta(prior, current, change, if prior != 0.0 then Some(change / Abs(prior) * 100.0) else None)
  }

  // ---------------------------------------------------------------------
  // Sums
  // ---------------------------------------------------------------------

  /** One row's values; a metric may be missing, or present without a value. */
  type Values = map<Metric, Option<real>>

  function Num(row: Values, m: Metric): real {
    if m in row && row[m].Some? then row[m].value else 0.0
  }

  function Sum(rows: seq<Values>, m: Metric): real {
    if rows == [] then 0.0 else Sum(rows[..|rows| - 1], m) + Num(rows[|rows| - 1], m)
  }

  function SumRows(rows: seq<Values>, keys: set<Metric>): map<Metric, real> {
    map m | m in keys :: Sum(rows, m)
  }

  function Quotient(x: real, y: real): real {
    if y != 0.0 then x / y else 0.0
  }

  /** Margin and win rate, where the sums they are made of are there. */
  function Derived(sums: map<Metric, real>): map<Metric, real> {
    (if GP in sums && Volume in sums then map[Margin := Quotient(sums[GP], sums[Volume])] else map[])
    + (if NumWon in sums && NumInquiries in sums then map[WinRate := Quotient(sums[NumWon], sums[NumInquiries])]
       else map[])
  }

  method DerivedMetrics(sums: map<Metric, real>) returns (out: map<Metric, real>)
    ensures out == Derived(sums)
  {
    out := map[];
    if GP in sums && Volume in sums {
      out := out[Margin := if sums[Volume] != 0.0 then sums[GP] / sums[Volume] else 0.0];
    }
    if NumWon in sums && NumInquiries in sums {
      out := out[WinRate := if sums[NumInquiries] != 0.0 then sums[NumWon] / sums[NumInquiries] else 0.0];
    }
  }

  function Totals(rows: seq<Values>): (t: map<Metric, real>)
    ensures KPI_METRICS <= t.Keys
  {
    var sums := SumRows(rows, SUM_METRICS);
    sums + Derived(sums)
  }

  function ComputeKpis(prior: seq<Values>, current: seq<Values>): map<Metric, Delta> {
    var a, b := Totals(prior), Totals(current);
    map m | m in KPI_METRICS :: DeltaOf(a[m], b[m])
  }

  // ---------------------------------------------------------------------
  // Rows of a merged table
  // ---------------------------------------------------------------------

  datatype Status = Both | New | Lost

  datatype Record = Record(key: string, status: Status, metrics: map<Metric, Delta>)

  const FLAT := Delta(0.0, 0.0, 0.0, None)

  /** A merged row always has gross profit, volume and margin. */
  type MergedRow = r: Record | ROW_METRICS <= r.metrics.Keys
    witness Record("", Both, map[GP := FLAT, Volume := FLAT, Margin := FLAT])

  /** Gross profit, volume, margin, and the counts that were summed. */
  function SideValues(sums: map<Metric, real>): (out: map<Metric, real>)
    requires GP in sums && Volume in sums
  {
    map m | m in sums.Keys + {Margin} && (m in ROW_METRICS || IsCount(m)) ::
      if m == Margin then Quotient(sums[GP], sums[Volume]) else sums[m]
  }

  method SideValuesOf(sums: map<Metric, real>) returns (out: map<Metric, real>)
    requires GP in sums && Volume in sums
    ensures out == SideValues(sums)
  {
    var derived := DerivedMetrics(sums);
    out := map[GP := sums[GP], Volume := sums[Volume], Margin := derived[Margin]];
    var i := 0;
    while i < |COUNT_METRICS|
      invariant 0 <= i <= |COUNT_METRICS|
      invariant forall m :: m in out <==> m in ROW_METRICS || (m in sums && Listed(m, i))
      invariant forall m :: m in out ==> out[m] == if m == Margin then Quotient(sums[GP], sums[Volume]) else sums[m]
    {
      var k := COUNT_METRICS[i];
      if k in sums {
        out := out[k := sums[k]];
      }
      i := i + 1;
    }
  }

  /** One of the first `i` counts. */
  predicate Listed(m: Metric, i: nat) {
    (m == NumWon && 0 < i) || (m == NumInquiries && 1 < i) || (m == NumLost && 2 < i)
  }

  function Metrics(a: map<Metric, real>, b: map<Metric, real>): map<Metric, Delta>
    requires a.Keys == b.Keys
  {
    map m | m in a :: DeltaOf(a[m], b[m])
  }

  /** The row whose two sides sum these rows over these metrics. */
  function RowOf(key: string, status: Status, prior: seq<Values>, current: seq<Values>, keys: set<Metric>): MergedRow
    requires GP in keys && Volume in keys
  {
    Record(key, status, Metrics(SideValues(SumRows(prior, keys)), SideValues(SumRows(current, keys))))
  }

  /** A column's total: the margin is the quotient of the sums, any other metric a sum. */
  function ColumnTotal(rows: seq<Values>, m: Metric): real {
    if m == Margin then Quotient(Sum(rows, GP), Sum(rows, Volume)) else Sum(rows, m)
  }

  lemma SideValuesAre(rows: seq<Values>, keys: set<Metric>, m: Metric)
    requires GP in keys && Volume in keys
    ensures m in SideValues(SumRows(rows, keys)) <==> m in ROW_METRICS || (m in keys && IsCount(m))
    ensures m in SideValues(SumRows(rows, keys)) ==> SideValues(SumRows(rows, keys))[m] == ColumnTotal(rows, m)
  {
  }

  /** Each metric of a row is the change between its two sides' totals; counts
      are there just when summed. */
  lemma RowOfMetric(key: string, status: Status, prior: seq<Values>, current: seq<Values>, keys: set<Metric>, m: Metric)
    requires GP in keys && Volume in keys
    ensures var r := RowOf(key, status, prior, current, keys).metrics;
            && (m in r <==> m in ROW_METRICS || (m in keys && IsCount(m)))
            && (m in r ==> r[m] == DeltaOf(ColumnTotal(prior, m), ColumnTotal(current, m)))
  {
    SideValuesAre(prior, keys, m);
    SideValuesAre(current, keys, m);
  }

  // ---------------------------------------------------------------------
  // Keys in order
  // ---------------------------------------------------------------------

  /** String order: by the first character that differs, a prefix first. */
  predicate Less(a: string, b: string) {
    b != [] && (a == [] || a[0] < b[0] || (a[0] == b[0] && Less(a[1..], b[1..])))
  }

  lemma {:induction false} LessIsTotal(a: string, b: string)
    ensures !(Less(a, b) && Less(b, a))
    ensures Less(a, b) || Less(b, a) || a == b
    ensures a == b ==> !Less(a, b)
  {
    if a != [] && b != [] && a[0] == b[0] {
      LessIsTotal(a[1..], b[1..]);
      assert a == [a[0]] + a[1..] && b == [b[0]] + b[1..];
    }
  }

  lemma {:induction false} LessIsTransitive(a: string, b: string, c: string)
    requires Less(a, b) && Less(b, c)
    ensures Less(a, c)
  {
    if a != [] && a[0] == b[0] == c[0] {
      LessIsTransitive(a[1..], b[1..], c[1..]);
    }
  }

  /** Keys are in order just when the first is a proper prefix of the second, or
      has the smaller character where they first differ. */
  ghost predicate DiffersAt(a: string, b: string, k: nat) {
    && k <= |a| && k < |b|
    && (forall i :: 0 <= i < k ==> a[i] == b[i])
    && (k == |a| || a[k] < b[k])
  }

  lemma {:induction false} LessIff(a: string, b: string)
    ensures Less(a, b) <==> exists k: nat :: DiffersAt(a, b, k)
  {
    if a != [] && b != [] && a[0] == b[0] {
      LessIff(a[1..], b[1..]);
      if k: nat :| DiffersAt(a[1..], b[1..], k) {
        assert DiffersAt(a, b, k + 1);
      }
      if k: nat :| DiffersAt(a, b, k) {
        assert DiffersAt(a[1..], b[1..], k - 1);
      }
    } else if Less(a, b) {
      assert DiffersAt(a, b, 0);
    }
  }

  predicate StrictlySorted(keys: seq<string>) {
    forall i, j :: 0 <= i < j < |keys| ==> Less(keys[i], keys[j])
  }

  function AddKey(keys: seq<string>, key: string): seq<string> {
    if keys == [] then [key]
    else
      var last := keys[|keys| - 1];
      if key == last then keys
      else if Less(last, key) then keys + [key]
      else AddKey(keys[..|keys| - 1], key) + [last]
  }

  lemma {:induction false} AddKeySorts(keys: seq<string>, key: string)
    requires StrictlySorted(keys)
    ensures StrictlySorted(AddKey(keys, key))
    ensures forall k :: k in AddKey(keys, key) <==> k in keys || k == key
  {
    if keys != [] {
      var front, last := keys[..|keys| - 1], keys[|keys| - 1];
      assert keys == front + [last];
      if key != last && Less(last, key) {
        forall i | 0 <= i < |front| ensures Less(keys[i], key) {
          LessIsTransitive(keys[i], last, key);
        }
      } else if key != last {
        AddKeySorts(front, key);
        LessIsTotal(last, key);
        var added := AddKey(front, key);
        forall i | 0 <= i < |added| ensures Less(added[i], last) {
          assert added[i] in added;
        }
      }
    }
  }

  // ---------------------------------------------------------------------
  // Merging two breakdowns
  // ---------------------------------------------------------------------

  datatype Entry = Entry(key: string, values: Values)

  /** A mapping from keys to rows, in insertion order. */
  type Breakdown = seq<Entry>

  predicate IsDict(b: Breakdown) {
    forall i, j :: 0 <= i < j < |b| ==> b[i].key != b[j].key
  }

  function Rows(b: Breakdown): (rows: seq<Values>) {
    seq(|b|, i requires 0 <= i < |b| => b[i].values)
  }

  function Lookup(b: Breakdown, key: string): seq<Values> {
    if b == [] then []
    else if b[|b| - 1].key == key then [b[|b| - 1].values]
    else Lookup(b[..|b| - 1], key)
  }

  function SortedKeys(b: Breakdown): seq<string> {
    if b == [] then [] else AddKey(SortedKeys(b[..|b| - 1]), b[|b| - 1].key)
  }

  predicate Reports(b: Breakdown, m: Metric) {
    exists i :: 0 <= i < |b| && m in b[i].values
  }

  function MergeKeys(prior: Breakdown, current: Breakdown): set<Metric> {
    {GP, Volume} + set m | m in {NumWon, NumInquiries, NumLost} && (Reports(prior, m) || Reports(current, m))
  }

  predicate Has(b: Breakdown, key: string) {
    Lookup(b, key) != []
  }

  function StatusOf(key: string, prior: Breakdown, current: Breakdown): Status {
    if Has(prior, key) && Has(current, key) then Both else if Has(current, key) then New else Lost
  }

  function MergedAt(key: string, prior: Breakdown, current: Breakdown): MergedRow {
    RowOf(key, StatusOf(key, prior, current), Lookup(prior, key), Lookup(current, key), MergeKeys(prior, current))
  }

  function MergeAll(keys: seq<string>, prior: Breakdown, current: Breakdown): (merged: seq<MergedRow>)
    ensures |merged| == |keys|
  {
    if keys == [] then []
    else MergeAll(keys[..|keys| - 1], prior, current) + [MergedAt(keys[|keys| - 1], prior, current)]
  }

  lemma {:induction false} MergeAllAt(keys: seq<string>, i: nat, prior: Breakdown, current: Breakdown)
    requires i < |keys|
    ensures MergeAll(keys, prior, current)[i] == MergedAt(keys[i], prior, current)
  {
    if i < |keys| - 1 {
      MergeAllAt(keys[..|keys| - 1], i, prior, current);
    }
  }

  function Merged(prior: Breakdown, current: Breakdown): seq<MergedRow> {
    MergeAll(SortedKeys(prior + current), prior, current)
  }

  predicate Keyed(b: Breakdown, key: string) {
    exists i :: 0 <= i < |b| && b[i].key == key
  }

  predicate Named(rows: seq<MergedRow>, key: string) {
    exists i :: 0 <= i < |rows| && rows[i].key == key
  }

  lemma MergeAllExtends(keys: seq<string>, i: nat, prior: Breakdown, current: Breakdown)
    requires i < |keys|
    ensures MergeAll(keys[..i + 1], prior, current)
            == MergeAll(keys[..i], prior, current) + [MergedAt(keys[i], prior, current)]
  {
    assert keys[..i + 1][..i] == keys[..i];
  }

  /** The body of the merging loop: the row of one key. */
  method MergeKey(key: string, prior: Breakdown, current: Breakdown, keys: set<Metric>) returns (row: MergedRow)
    requires keys == MergeKeys(prior, current)
    ensures row == MergedAt(key, prior, current)
  {
    var status := if Has(prior, key) && Has(current, key) then Both else if Has(current, key) then New else Lost;
    var a := SideValuesOf(SumRows(Lookup(prior, key), keys));
    var b := SideValuesOf(SumRows(Lookup(current, key), keys));
    row := Record(key, status, Metrics(a, b));
  }

  method MergeBreakdowns(prior: Breakdown, current: Breakdown) returns (merged: seq<MergedRow>)
    requires IsDict(prior) && IsDict(current)
    ensures merged == Merged(prior, current)
    ensures forall i, j :: 0 <= i < j < |merged| ==> Less(merged[i].key, merged[j].key)
    ensures forall key :: Named(merged, key) <==> Keyed(prior, key) || Keyed(current, key)
  {
    var all := SortedKeys(prior + current);
    var keys := MergeKeys(prior, current);
    merged := [];
    var i := 0;
    while i < |all|
      invariant 0 <= i <= |all|
      invariant merged == MergeAll(all[..i], prior, current)
    {
      var row := MergeKey(all[i], prior, current, keys);
      merged := merged + [row];
      MergeAllExtends(all, i, prior, current);
      i := i + 1;
    }
    assert all[..|all|] == all;
    MergedKeys(prior, current);
  }

  lemma MergedKeys(prior: Breakdown, current: Breakdown)
    ensures var merged := Merged(prior, current);
            && (forall i, j :: 0 <= i < j < |merged| ==> Less(merged[i].key, merged[j].key))
            && (forall key :: Named(merged, key) <==> Keyed(prior, key) || Keyed(current, key))
  {
    var merged, keys := Merged(prior, current), SortedKeys(prior + current);
    SortedKeysAreAll(prior + current);
    forall i | 0 <= i < |keys| ensures merged[i].key == keys[i] {
      MergeAllAt(keys, i, prior, current);
    }
    forall key ensures Named(merged, key) <==> Keyed(prior, key) || Keyed(current, key) {
      KeyOfEither(prior, current, key);
    }
  }

  lemma KeyOfEither(prior: Breakdown, current: Breakdown, key: string)
    ensures Keyed(prior + current, key) <==> Keyed(prior, key) || Keyed(current, key)
    ensures key in SortedKeys(prior + current) <==> Keyed(prior, key) || Keyed(current, key)
  {
    var both := prior + current;
    if Keyed(prior, key) {
      var i :| 0 <= i < |prior| && prior[i].key == key;
      assert both[i].key == key;
    }
    if Keyed(current, key) {
      var i :| 0 <= i < |current| && current[i].key == key;
      assert both[|prior| + i].key == key;
    }
    SortedKeysAreAll(both);
  }

  lemma KeyedSnoc(b: Breakdown, key: string)
    requires b != []
    ensures Keyed(b, key) <==> Keyed(b[..|b| - 1], key) || key == b[|b| - 1].key
  {
    var front := b[..|b| - 1];
    if Keyed(b, key) && key != b[|b| - 1].key {
      var i :| 0 <= i < |b| && b[i].key == key;
      assert front[i].key == key;
    }
    if Keyed(front, key) {
      var i :| 0 <= i < |front| && front[i].key == key;
      assert b[i].key == key;
    }
  }

  lemma {:induction false} SortedKeysAreAll(b: Breakdown)
    ensures StrictlySorted(SortedKeys(b))
    ensures forall key :: key in SortedKeys(b) <==> Keyed(b, key)
  {
    if b != [] {
      var front := b[..|b| - 1];
      SortedKeysAreAll(front);
      AddKeySorts(SortedKeys(front), b[|b| - 1].key);
      forall key ensures Keyed(b, key) <==> Keyed(front, key) || key == b[|b| - 1].key {
        KeyedSnoc(b, key);
      }
    }
  }

  // ---------------------------------------------------------------------
  // A merged table adds up to the breakdowns
  // ---------------------------------------------------------------------

  function Part(r: MergedRow, m: Metric, side: Side): real {
    if m in r.metrics then r.metrics[m].On(side) else 0.0
  }

  function RowTotal(rows: seq<MergedRow>, m: Metric, side: Side): real {
    if rows == [] then 0.0 else RowTotal(rows[..|rows| - 1], m, side) + Part(rows[|rows| - 1], m, side)
  }

  /** What the listed keys hold of a metric in one breakdown. */
  function KeyTotal(keys: seq<string>, b: Breakdown, m: Metric): real {
    if keys == [] then 0.0 else KeyTotal(keys[..|keys| - 1], b, m) + Sum(Lookup(b, keys[|keys| - 1]), m)
  }

  lemma {:induction false} NoKeysNoTotal(keys: seq<string>, m: Metric)
    ensures KeyTotal(keys, [], m) == 0.0
  {
    if keys != [] {
      NoKeysNoTotal(keys[..|keys| - 1], m);
    }
  }

  lemma {:induction false} LookupAbsent(b: Breakdown, key: string)
    ensures Has(b, key) <==> Keyed(b, key)
  {
    if b != [] {
      LookupAbsent(b[..|b| - 1], key);
      KeyedSnoc(b, key);
    }
  }

  /** Taking one entry away takes its value from the total, once. */
  lemma {:induction false} EntryCountsOnce(keys: seq<string>, b: Breakdown, m: Metric)
    requires StrictlySorted(keys) && IsDict(b) && b != []
    ensures var e, front := b[|b| - 1], b[..|b| - 1];
            KeyTotal(keys, b, m) == KeyTotal(keys, front, m) + if e.key in keys then Num(e.values, m) else 0.0
  {
    var e, front := b[|b| - 1], b[..|b| - 1];
    if keys != [] {
      var less, last := keys[..|keys| - 1], keys[|keys| - 1];
      assert keys == less + [last];
      EntryCountsOnce(less, b, m);
      if last == e.key {
        LookupAbsent(front, e.key);
        if last in less {
          LessIsTotal(last, last);
          assert false;
        }
        assert [e.values][..0] == [];
        assert Sum([e.values], m) == Num(e.values, m);
      }
    }
  }

  lemma {:induction false} KeysHoldEverything(keys: seq<string>, b: Breakdown, m: Metric)
    requires StrictlySorted(keys) && IsDict(b) && (forall i :: 0 <= i < |b| ==> b[i].key in keys)
    ensures KeyTotal(keys, b, m) == Sum(Rows(b), m)
  {
    if b == [] {
      NoKeysNoTotal(keys, m);
    } else {
      var front := b[..|b| - 1];
      EntryCountsOnce(keys, b, m);
      KeysHoldEverything(keys, front, m);
      assert Rows(b)[..|b| - 1] == Rows(front);
    }
  }

  lemma PartOfMerged(key: string, prior: Breakdown, current: Breakdown, m: Metric, side: Side)
    requires m in MergeKeys(prior, current)
    ensures Part(MergedAt(key, prior, current), m, side)
            == Sum(Lookup(if side.Prior? then prior else current, key), m)
  {
    SideOfRow(key, prior, current, m, side);
  }

  lemma {:induction false} MergedHolds(keys: seq<string>, prior: Breakdown, current: Breakdown, m: Metric, side: Side)
    requires m in MergeKeys(prior, current)
    ensures RowTotal(MergeAll(keys, prior, current), m, side)
            == KeyTotal(keys, if side.Prior? then prior else current, m)
  {
    if keys != [] {
      var less, last := keys[..|keys| - 1], keys[|keys| - 1];
      MergedHolds(less, prior, current, m, side);
      PartOfMerged(last, prior, current, m, side);
      var merged := MergeAll(keys, prior, current);
      assert merged[..|merged| - 1] == MergeAll(less, prior, current);
    }
  }

  /** Merging loses nothing and counts nothing twice: on every metric the merged
      rows carry, either month's column adds up to that month's breakdown. */
  lemma MergeConserves(prior: Breakdown, current: Breakdown, m: Metric, side: Side)
    requires IsDict(prior) && IsDict(current) && m in MergeKeys(prior, current)
    ensures RowTotal(Merged(prior, current), m, side) == Sum(Rows(if side.Prior? then prior else current), m)
  {
    var keys := SortedKeys(prior + current);
    var b := if side.Prior? then prior else current;
    SortedKeysAreAll(prior + current);
    MergedHolds(keys, prior, current, m, side);
    forall i | 0 <= i < |b| ensures b[i].key in keys {
      KeyOfEither(prior, current, b[i].key);
    }
    KeysHoldEverything(keys, b, m);
  }

  /** A merged row is "new" or "lost" just when only one month has its key; the
      month without it is zero on every metric, with no base for a percentage. */
  lemma StatusMeans(prior: Breakdown, current: Breakdown, key: string, m: Metric)
    requires Keyed(prior, key) || Keyed(current, key)
    ensures var r := MergedAt(key, prior, current);
            && r.key == key
            && (r.status.New? <==> !Keyed(prior, key)) && (r.status.Lost? <==> !Keyed(current, key))
            && (m in r.metrics && r.status.New? ==> r.metrics[m].prior == 0.0 && r.metrics[m].pctChange == None)
            && (m in r.metrics && r.status.Lost? ==> r.metrics[m].current == 0.0)
  {
    LookupAbsent(prior, key);
    LookupAbsent(current, key);
    RowOfMetric(key, StatusOf(key, prior, current), Lookup(prior, key), Lookup(current, key),
                MergeKeys(prior, current), m);
  }

  // ---------------------------------------------------------------------
  // Rows and tiles in the entries' own values
  // ---------------------------------------------------------------------

  lemma {:induction false} LookupIs(b: Breakdown, i: nat)
    requires IsDict(b) && i < |b|
    ensures Lookup(b, b[i].key) == [b[i].values]
  {
    if i < |b| - 1 {
      LookupIs(b[..|b| - 1], i);
    }
  }

  /** A row's figure: its value, or nothing where it is missing or null. */
  ghost predicate Shows(row: Values, m: Metric, x: real) {
    if m in row && row[m].Some? then x == row[m].value else x == 0.0
  }

  lemma SumOne(row: Values, m: Metric)
    ensures Sum([row], m) == Num(row, m) && Shows(row, m, Num(row, m))
  {
    assert [row][..0] == [];
  }

  lemma SideOfRow(key: string, prior: Breakdown, current: Breakdown, m: Metric, side: Side)
    requires m in MergeKeys(prior, current)
    ensures m in MergedAt(key, prior, current).metrics
    ensures MergedAt(key, prior, current).metrics[m].On(side)
            == Sum(Lookup(if side.Prior? then prior else current, key), m)
  {
    RowOfMetric(key, StatusOf(key, prior, current), Lookup(prior, key), Lookup(current, key),
                MergeKeys(prior, current), m);
  }

  /** Some entry of the month reports this metric. */
  ghost predicate SomeEntryHas(b: Breakdown, m: Metric) {
    exists e :: e in b && m in e.values
  }

  lemma ReportsIff(b: Breakdown, m: Metric)
    ensures Reports(b, m) <==> SomeEntryHas(b, m)
  {
    if e :| e in b && m in e.values {
      var i :| 0 <= i < |b| && b[i] == e;
    }
    if i :| 0 <= i < |b| && m in b[i].values {
      assert b[i] in b;
    }
  }

  lemma MergeKeysHave(prior: Breakdown, current: Breakdown, m: Metric)
    requires IsCount(m)
    ensures m in MergeKeys(prior, current) <==> SomeEntryHas(prior, m) || SomeEntryHas(current, m)
  {
    ReportsIff(prior, m);
    ReportsIff(current, m);
  }

  lemma MergedAtHas(key: string, prior: Breakdown, current: Breakdown, m: Metric)
    ensures m in MergedAt(key, prior, current).metrics <==>
              m in ROW_METRICS || (IsCount(m) && (SomeEntryHas(prior, m) || SomeEntryHas(current, m)))
  {
    RowOfMetric(key, StatusOf(key, prior, current), Lookup(prior, key), Lookup(current, key),
                MergeKeys(prior, current), m);
    if IsCount(m) {
      MergeKeysHave(prior, current, m);
    }
  }

  /** Every merged row has gross profit, volume and margin, and a count just when
      some entry of either month reports it. */
  lemma RowHasMetricIff(prior: Breakdown, current: Breakdown, r: MergedRow, m: Metric)
    requires r in Merged(prior, current)
    ensures m in r.metrics <==>
              m in ROW_METRICS || (IsCount(m) && (SomeEntryHas(prior, m) || SomeEntryHas(current, m)))
  {
    var key := MergedIsAt(prior, current, r);
    MergedAtHas(key, prior, current, m);
  }

  lemma MergedIsAt(prior: Breakdown, current: Breakdown, r: MergedRow) returns (key: string)
    requires r in Merged(prior, current)
    ensures r == MergedAt(key, prior, current)
  {
    var keys, merged := SortedKeys(prior + current), Merged(prior, current);
    var k :| 0 <= k < |merged| && merged[k] == r;
    MergeAllAt(keys, k, prior, current);
    key := keys[k];
  }

  /** A merged row shows, in either month, its own key's figures, nothing where
      the month lacks the key, and margins that are those figures' quotients. */
  lemma RowShowsItsEntry(prior: Breakdown, current: Breakdown, r: MergedRow, m: Metric, side: Side)
    requires IsDict(prior) && IsDict(current) && r in Merged(prior, current) && m in MergeKeys(prior, current)
    ensures var b := if side.Prior? then prior else current;
            && m in r.metrics
            && (forall i :: 0 <= i < |b| && b[i].key == r.key ==> Shows(b[i].values, m, r.metrics[m].On(side)))
            && (!Keyed(b, r.key) ==> r.metrics[m].On(side) == 0.0)
    ensures var (gp, volume) := (r.metrics[GP].On(side), r.metrics[Volume].On(side));
            if volume == 0.0 then r.metrics[Margin].On(side) == 0.0 else r.metrics[Margin].On(side) == gp / volume
  {
    var key := MergedIsAt(prior, current, r);
    SideOfEntry(key, prior, current, m, side);
    MarginOfRow(key, prior, current, side);
  }

  lemma SideOfEntry(key: string, prior: Breakdown, current: Breakdown, m: Metric, side: Side)
    requires IsDict(prior) && IsDict(current) && m in MergeKeys(prior, current)
    ensures var b := if side.Prior? then prior else current;
            var r := MergedAt(key, prior, current);
            && m in r.metrics
            && (forall i :: 0 <= i < |b| && b[i].key == key ==> Shows(b[i].values, m, r.metrics[m].On(side)))
            && (!Keyed(b, key) ==> r.metrics[m].On(side) == 0.0)
  {
    var b := if side.Prior? then prior else current;
    SideOfRow(key, prior, current, m, side);
    LookupAbsent(b, key);
    forall i | 0 <= i < |b| && b[i].key == key
      ensures Shows(b[i].values, m, MergedAt(key, prior, current).metrics[m].On(side))
    {
      LookupIs(b, i);
      SumOne(b[i].values, m);
    }
  }

  lemma MarginOfRow(key: string, prior: Breakdown, current: Breakdown, side: Side)
    ensures var r := MergedAt(key, prior, current).metrics;
            r[Margin].On(side) == Quotient(r[GP].On(side), r[Volume].On(side))
  {
    var a, b, keys := Lookup(prior, key), Lookup(current, key), MergeKeys(prior, current);
    RowOfMetric(key, StatusOf(key, prior, current), a, b, keys, GP);
    RowOfMetric(key, StatusOf(key, prior, current), a, b, keys, Volume);
    RowOfMetric(key, StatusOf(key, prior, current), a, b, keys, Margin);
  }

  lemma {:induction false} SumAppends(a: seq<Values>, b: seq<Values>, m: Metric)
    ensures Sum(a + b, m) == Sum(a, m) + Sum(b, m)
  {
    if b == [] {
      assert a + b == a;
    } else {
      SumAppends(a, b[..|b| - 1], m);
      assert (a + b)[..|a + b| - 1] == a + b[..|b| - 1];
    }
  }

  /** The sum the tiles show for one month. */
  lemma TotalsAre(rows: seq<Values>, m: Metric)
    requires m in ROW_METRICS || IsCount(m)
    ensures Totals(rows)[m] == ColumnTotal(rows, m)
  {
  }

  lemma TileIs(prior: seq<Values>, current: seq<Values>, m: Metric)
    requires m in SUM_METRICS
    ensures ComputeKpis(prior, current)[m].prior == Sum(prior, m)
    ensures ComputeKpis(prior, current)[m].current == Sum(current, m)
  {
    TotalsAre(prior, m);
    TotalsAre(current, m);
  }

  /** The tiles of summed metrics are additive in the rows of each month, a single
      row's tile is its own value, and the other month's tile does not see it. */
  lemma TilesAreSums(prior: seq<Values>, current: seq<Values>, row: Values, m: Metric)
    requires m in SUM_METRICS
    ensures ComputeKpis([], [])[m].prior == ComputeKpis([], [])[m].current == 0.0
    ensures var was, more := ComputeKpis(prior, current)[m], ComputeKpis(prior + [row], current)[m];
            Shows(row, m, more.prior - was.prior) && more.current == was.current
    ensures var was, more := ComputeKpis(prior, current)[m], ComputeKpis(prior, current + [row])[m];
            Shows(row, m, more.current - was.current) && more.prior == was.prior
  {
    TileIs([], [], m);
    TileIs(prior, current, m);
    TileIs(prior + [row], current, m);
    TileIs(prior, current + [row], m);
    SumAppends(prior, [row], m);
    SumAppends(current, [row], m);
    SumOne(row, m);
  }

  /** The margin and win-rate tiles are quotients of the tiles they are made of,
      never sums or averages of rows' ratios; zero where there is nothing to
      divide by. */
  lemma RatioTiles(prior: seq<Values>, current: seq<Values>, side: Side)
    ensures var t := ComputeKpis(prior, current);
            && (if t[Volume].On(side) == 0.0 then t[Margin].On(side) == 0.0
                else t[Margin].On(side) == t[GP].On(side) / t[Volume].On(side))
            && (if t[NumInquiries].On(side) == 0.0 then t[WinRate].On(side) == 0.0
                else t[WinRate].On(side) == t[NumWon].On(side) / t[NumInquiries].On(side))
  {
    TotalRatios(prior);
    TotalRatios(current);
  }

  lemma TotalRatios(rows: seq<Values>)
    ensures var t := Totals(rows);
            t[Margin] == Quotient(t[GP], t[Volume]) && t[WinRate] == Quotient(t[NumWon], t[NumInquiries])
  {
  }
}
