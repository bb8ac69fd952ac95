/**
  What drove a row's change in gross profit: the volume moved at last month's
  margin, or the margin moved on this month's volume.
 */
module MomDriver {
  import opened Common
  import opened Mom

  datatype Driver = VolumeDriven | MarginDriven | BothDriven | Unchanged | NewRow | LostRow

  const VOLUME_DRIVEN_ABOVE := 0.65
  const MARGIN_DRIVEN_BELOW := 0.35

  function VolumeEffect(r: MergedRow): real {
    var marginA := r.metrics[Margin].prior;
    if marginA != 0.0 then (r.metrics[Volume].current - r.metrics[Volume].prior) * marginA else 0.0
  }

  function MarginEffect(r: MergedRow): real {
    var volumeB := r.metrics[Volume].current;
    if volumeB != 0.0 then (r.metrics[Margin].current - r.metrics[Margin].prior) * volumeB else 0.0
  }

  function DriverOf(r: MergedRow): Driver {
    match r.status
    case New => NewRow
    case Lost => LostRow
    case Both => Label(VolumeEffect(r), MarginEffect(r))
  }

  function Label(volumeEffect: real, marginEffect: real): Driver {
    if volumeEffect == 0.0 && marginEffect == 0.0 then Unchanged
    else
      var ratio := Abs(volumeEffect) / (Abs(volumeEffect) + Abs(marginEffect));
      if ratio > VOLUME_DRIVEN_ABOVE then VolumeDriven
      else if ratio < MARGIN_DRIVEN_BELOW then MarginDriven
      else BothDriven
  }

  // ---------------------------------------------------------------------
  // What the labels mean
  // ---------------------------------------------------------------------

  lemma ShareAbove(x: real, y: real, t: real)
    requires y > 0.0
    ensures x / y > t <==> x > t * y
    ensures x / y < t <==> x < t * y
  {
    assert (x / y) * y == x;
    if x / y > t {
      assert (x / y - t) * y > 0.0;
    } else if x / y < t {
      assert (t - x / y) * y > 0.0;
    }
  }

  /** One effect is the driver just when it is more than 13/7 times the other. */
  lemma LabelMeans(v: real, m: real)
    ensures Label(v, m).Unchanged? <==> v == 0.0 && m == 0.0
    ensures Label(v, m).VolumeDriven? <==> 7.0 * Abs(v) > 13.0 * Abs(m)
    ensures Label(v, m).MarginDriven? <==> 7.0 * Abs(m) > 13.0 * Abs(v)
    ensures Label(v, m) in {Unchanged, VolumeDriven, MarginDriven, BothDriven}
  {
    if v != 0.0 || m != 0.0 {
      ShareAbove(Abs(v), Abs(v) + Abs(m), VOLUME_DRIVEN_ABOVE);
      ShareAbove(Abs(v), Abs(v) + Abs(m), MARGIN_DRIVEN_BELOW);
    }
  }

  /** What a row's driver is, from the row's own figures: `v` is its change in
      volume at last month's margin, `m` its change in margin on this month's
      volume. A row of both months is driven by the one more than 13/7 times the
      other, unchanged where both are nothing, and else driven by both. */
  ghost predicate DrivenBy(r: MergedRow, d: Driver, v: real, m: real) {
    && (d.NewRow? <==> r.status.New?)
    && (d.LostRow? <==> r.status.Lost?)
    && (r.status.Both? ==>
          && (d.Unchanged? <==> v == 0.0 && m == 0.0)
          && (d.VolumeDriven? <==> 7.0 * Abs(v) > 13.0 * Abs(m))
          && (d.MarginDriven? <==> 7.0 * Abs(m) > 13.0 * Abs(v)))
  }

  lemma DriverMeans(r: MergedRow, v: real, m: real)
    requires v == (r.metrics[Volume].current - r.metrics[Volume].prior) * r.metrics[Margin].prior
    requires m == (r.metrics[Margin].current - r.metrics[Margin].prior) * r.metrics[Volume].current
    ensures DrivenBy(r, DriverOf(r), v, m)
  {
    EffectsAre(r);
    LabelMeans(v, m);
  }

  lemma AbsScales(c: real, x: real)
    requires c > 0.0
    ensures Abs(c * x) == c * Abs(x)
    ensures c * x == 0.0 <==> x == 0.0
  {
    if x < 0.0 {
      assert c * x < 0.0;
    } else if x > 0.0 {
      assert c * x > 0.0;
    }
  }

  lemma ScaledOrder(c: real, x: real, y: real)
    requires c > 0.0
    ensures c * x > c * y <==> x > y
  {
    assert c * x - c * y == c * (x - y);
    AbsScales(c, x - y);
    if x > y {
      assert c * (x - y) > 0.0;
    } else if x < y {
      assert c * (y - x) > 0.0;
    }
  }

  lemma DominanceScales(c: real, x: real, y: real, x': real, y': real)
    requires c > 0.0 && x' == c * x && y' == c * y
    ensures 7.0 * x' > 13.0 * y' <==> 7.0 * x > 13.0 * y
  {
    assert 7.0 * x' - 13.0 * y' == c * (7.0 * x - 13.0 * y);
    ScaledOrder(c, 7.0 * x - 13.0 * y, 0.0);
  }

  /** A label depends on the two effects' proportion only. */
  lemma LabelScales(v: real, m: real, c: real, v': real, m': real)
    requires c > 0.0 && v' == c * v && m' == c * m
    ensures Label(v', m') == Label(v, m)
  {
    LabelMeans(v, m);
    LabelMeans(v', m');
    AbsScales(c, v);
    AbsScales(c, m);
    DominanceScales(c, Abs(v), Abs(m), Abs(v'), Abs(m'));
    DominanceScales(c, Abs(m), Abs(v), Abs(m'), Abs(v'));
  }

  // ---------------------------------------------------------------------
  // The effects account for the change
  // ---------------------------------------------------------------------

  /** Gross profit of a month without volume: no margin carries it. */
  function Stranded(r: MergedRow, side: Side): real {
    if r.metrics[Volume].On(side) == 0.0 then r.metrics[GP].On(side) else 0.0
  }

  /** A row whose margins are its own gross profit over its own volume. */
  predicate Consistent(r: MergedRow) {
    && r.metrics[GP].change == r.metrics[GP].current - r.metrics[GP].prior
    && r.metrics[Margin].prior == Quotient(r.metrics[GP].prior, r.metrics[Volume].prior)
    && r.metrics[Margin].current == Quotient(r.metrics[GP].current, r.metrics[Volume].current)
  }

  lemma MergedMetric(prior: Breakdown, current: Breakdown, key: string, m: Metric)
    requires m in ROW_METRICS
    ensures MergedAt(key, prior, current).metrics[m]
            == DeltaOf(ColumnTotal(Lookup(prior, key), m), ColumnTotal(Lookup(current, key), m))
  {
    RowOfMetric(key, StatusOf(key, prior, current), Lookup(prior, key), Lookup(current, key),
                MergeKeys(prior, current), m);
  }

  lemma MergedIsConsistent(key: string, prior: Breakdown, current: Breakdown)
    ensures Consistent(MergedAt(key, prior, current))
  {
    MergedMetric(prior, current, key, GP);
    MergedMetric(prior, current, key, Volume);
    MergedMetric(prior, current, key, Margin);
  }

  lemma QuotientCancels(x: real, y: real)
    ensures Quotient(x, y) * y == if y == 0.0 then 0.0 else x
  {
  }

  lemma EffectsSum(va: real, vb: real, ma: real, mb: real)
    ensures (vb - va) * ma + (mb - ma) * vb == mb * vb - ma * va
  {
  }

  lemma EffectsAre(r: MergedRow)
    ensures VolumeEffect(r) == (r.metrics[Volume].current - r.metrics[Volume].prior) * r.metrics[Margin].prior
    ensures MarginEffect(r) == (r.metrics[Margin].current - r.metrics[Margin].prior) * r.metrics[Volume].current
  {
  }

  /** For every merged row: the two effects miss the change in gross profit by
      exactly what the months hold without volume. */
  lemma EffectsAccountForChange(r: MergedRow)
    requires Consistent(r)
    ensures VolumeEffect(r) + MarginEffect(r) + Stranded(r, Current) - Stranded(r, Prior) == r.metrics[GP].change
  {
    EffectsAre(r);
    var va, vb := r.metrics[Volume].prior, r.metrics[Volume].current;
    var ma, mb := r.metrics[Margin].prior, r.metrics[Margin].current;
    EffectsSum(va, vb, ma, mb);
    QuotientCancels(r.metrics[GP].prior, va);
    QuotientCancels(r.metrics[GP].current, vb);
  }

  /** Volume effect plus margin effect is the change in gross profit if and only
      if both months strand the same: in particular where a month without volume
      has no gross profit. */
  lemma DriverIdentityIff(prior: Breakdown, current: Breakdown, key: string)
    ensures var r := MergedAt(key, prior, current);
            VolumeEffect(r) + MarginEffect(r) == r.metrics[GP].change <==> Stranded(r, Prior) == Stranded(r, Current)
    ensures var r := MergedAt(key, prior, current);
            DriverOf(r).Unchanged? ==>
              (r.metrics[GP].change == 0.0 <==> Stranded(r, Prior) == Stranded(r, Current))
  {
    var r := MergedAt(key, prior, current);
    MergedIsConsistent(key, prior, current);
    EffectsAccountForChange(r);
    LabelMeans(VolumeEffect(r), MarginEffect(r));
  }

  /** A row with no volume in either month reads "unchanged" whatever its gross
      profit did. */
  lemma UnchangedCanHideAChange() returns (prior: Breakdown, current: Breakdown)
    ensures IsDict(prior) && IsDict(current) && Merged(prior, current) == [MergedAt("k", prior, current)]
    ensures var r := MergedAt("k", prior, current); DriverOf(r).Unchanged? && r.metrics[GP].change == 100.0
  {
    prior := [Entry("k", map[GP := Some(0.0), Volume := Some(0.0)])];
    current := [Entry("k", map[GP := Some(100.0), Volume := Some(0.0)])];
    LookupIs(prior, 0);
    LookupIs(current, 0);
    RowParts(prior, current, "k");
    MergedMetric(prior, current, "k", GP);
    SumOne(prior[0].values, GP);
    SumOne(prior[0].values, Volume);
    SumOne(current[0].values, GP);
    SumOne(current[0].values, Volume);
    assert (prior + current)[..1] == prior && prior[..0] == [];
    assert SortedKeys(prior) == ["k"];
    assert SortedKeys(prior + current) == ["k"];
    assert ["k"][..0] == [];
  }

  // ---------------------------------------------------------------------
  // Units do not matter
  // ---------------------------------------------------------------------

  function ScaledValues(row: Values, m: Metric, c: real): Values {
    map k | k in row :: if k == m && row[k].Some? then Some(c * row[k].value) else row[k]
  }

  /** A breakdown with one metric in another unit. */
  function Scaled(b: Breakdown, m: Metric, c: real): (s: Breakdown)
    ensures |s| == |b|
    ensures forall i :: 0 <= i < |b| ==> s[i] == Entry(b[i].key, ScaledValues(b[i].values, m, c))
  {
    seq(|b|, i requires 0 <= i < |b| => Entry(b[i].key, ScaledValues(b[i].values, m, c)))
  }

  lemma {:induction false} ScaledKeys(b: Breakdown, m: Metric, c: real)
    ensures SortedKeys(Scaled(b, m, c)) == SortedKeys(b)
  {
    if b != [] {
      ScaledKeys(b[..|b| - 1], m, c);
      assert Scaled(b, m, c)[..|b| - 1] == Scaled(b[..|b| - 1], m, c);
    }
  }

  lemma {:induction false} ScaledLookup(b: Breakdown, key: string, m: Metric, c: real)
    ensures |Lookup(b, key)| == |Lookup(Scaled(b, m, c), key)| <= 1
    ensures Lookup(b, key) != [] ==> Lookup(Scaled(b, m, c), key)[0] == ScaledValues(Lookup(b, key)[0], m, c)
  {
    if b != [] {
      ScaledLookup(b[..|b| - 1], key, m, c);
      assert Scaled(b, m, c)[..|b| - 1] == Scaled(b[..|b| - 1], m, c);
    }
  }

  lemma ScaledNum(row: Values, m: Metric, c: real, k: Metric)
    ensures Num(ScaledValues(row, m, c), k) == InUnit(k, m, c, Num(row, k))
  {
  }

  lemma ScaledSum(b: Breakdown, key: string, m: Metric, c: real, k: Metric)
    ensures Sum(Lookup(Scaled(b, m, c), key), k) == InUnit(k, m, c, Sum(Lookup(b, key), k))
  {
    ScaledLookup(b, key, m, c);
    if Lookup(b, key) != [] {
      var row := Lookup(b, key)[0];
      assert Lookup(b, key) == [row] && Lookup(Scaled(b, m, c), key) == [ScaledValues(row, m, c)];
      SumOne(row, k);
      SumOne(ScaledValues(row, m, c), k);
      ScaledNum(row, m, c, k);
    }
  }

  lemma ScaledQuotient(x: real, y: real, c: real)
    requires c > 0.0
    ensures Quotient(c * x, y) == c * Quotient(x, y)
    ensures c * Quotient(x, c * y) == Quotient(x, y)
  {
    AbsScales(c, y);
    if y != 0.0 {
      assert (c * x) / y == c * (x / y);
      assert (x / (c * y)) * (c * y) == x;
      assert ((x / (c * y)) * c) * y == x;
    }
  }

  /** What a merged row's margins and volumes are made of. */
  lemma RowParts(prior: Breakdown, current: Breakdown, key: string)
    ensures var r := MergedAt(key, prior, current).metrics;
            && r[Volume].prior == Sum(Lookup(prior, key), Volume)
            && r[Volume].current == Sum(Lookup(current, key), Volume)
            && r[Margin].prior == Quotient(Sum(Lookup(prior, key), GP), Sum(Lookup(prior, key), Volume))
            && r[Margin].current == Quotient(Sum(Lookup(current, key), GP), Sum(Lookup(current, key), Volume))
  {
    MergedMetric(prior, current, key, GP);
    MergedMetric(prior, current, key, Volume);
    MergedMetric(prior, current, key, Margin);
  }

  lemma ProductScales(x: real, y: real, c: real)
    ensures x * (c * y) == c * (x * y)
    ensures (c * x) * y == c * (x * y)
  {
  }

  /** The two effects, from the four sums a merged row is made of. */
  function VolumeEffectOf(ga: real, va: real, vb: real): real {
    (vb - va) * Quotient(ga, va)
  }

  function MarginEffectOf(ga: real, va: real, gb: real, vb: real): real {
    (Quotient(gb, vb) - Quotient(ga, va)) * vb
  }

  function LabelOf(ga: real, va: real, gb: real, vb: real): Driver {
    Label(VolumeEffectOf(ga, va, vb), MarginEffectOf(ga, va, gb, vb))
  }

  lemma LabelOfParts(r: MergedRow, ga: real, va: real, gb: real, vb: real)
    requires r.metrics[Volume].prior == va && r.metrics[Volume].current == vb
    requires r.metrics[Margin].prior == Quotient(ga, va) && r.metrics[Margin].current == Quotient(gb, vb)
    ensures Label(VolumeEffect(r), MarginEffect(r)) == LabelOf(ga, va, gb, vb)
  {
    EffectsAre(r);
    assert VolumeEffect(r) == VolumeEffectOf(ga, va, vb);
    assert MarginEffect(r) == MarginEffectOf(ga, va, gb, vb);
  }

  lemma LabelFromSums(prior: Breakdown, current: Breakdown, key: string)
    ensures var r := MergedAt(key, prior, current);
            Label(VolumeEffect(r), MarginEffect(r))
            == LabelOf(Sum(Lookup(prior, key), GP), Sum(Lookup(prior, key), Volume),
                       Sum(Lookup(current, key), GP), Sum(Lookup(current, key), Volume))
  {
    RowParts(prior, current, key);
    LabelOfParts(MergedAt(key, prior, current), Sum(Lookup(prior, key), GP), Sum(Lookup(prior, key), Volume),
                 Sum(Lookup(current, key), GP), Sum(Lookup(current, key), Volume));
  }

  lemma EffectsScaleWithGp(ga: real, va: real, gb: real, vb: real, c: real)
    requires c > 0.0
    ensures VolumeEffectOf(c * ga, va, vb) == c * VolumeEffectOf(ga, va, vb)
    ensures MarginEffectOf(c * ga, va, c * gb, vb) == c * MarginEffectOf(ga, va, gb, vb)
  {
    ScaledQuotient(ga, va, c);
    ScaledQuotient(gb, vb, c);
    var ma, mb := Quotient(ga, va), Quotient(gb, vb);
    ProductScales(vb - va, ma, c);
    ProductScales(mb - ma, vb, c);
    assert c * mb - c * ma == c * (mb - ma);
  }

  lemma EffectsKeepWithVolume(ga: real, va: real, gb: real, vb: real, c: real)
    requires c > 0.0
    ensures VolumeEffectOf(ga, c * va, c * vb) == VolumeEffectOf(ga, va, vb)
    ensures MarginEffectOf(ga, c * va, gb, c * vb) == MarginEffectOf(ga, va, gb, vb)
  {
    ScaledQuotient(ga, va, c);
    ScaledQuotient(gb, vb, c);
    var na, nb := Quotient(ga, c * va), Quotient(gb, c * vb);
    assert c * vb - c * va == c * (vb - va);
    ProductScales(vb - va, na, c);
    ProductScales(nb - na, vb, c);
    assert c * (nb - na) == Quotient(gb, vb) - Quotient(ga, va);
  }

  function InUnit(k: Metric, m: Metric, c: real, x: real): real {
    if k == m then c * x else x
  }

  lemma LabelOfScales(m: Metric, c: real, ga: real, va: real, gb: real, vb: real,
                      ga': real, va': real, gb': real, vb': real)
    requires c > 0.0 && (m == GP || m == Volume)
    requires ga' == InUnit(GP, m, c, ga) && va' == InUnit(Volume, m, c, va)
    requires gb' == InUnit(GP, m, c, gb) && vb' == InUnit(Volume, m, c, vb)
    ensures LabelOf(ga', va', gb', vb') == LabelOf(ga, va, gb, vb)
  {
    if m == GP {
      EffectsScaleWithGp(ga, va, gb, vb, c);
      LabelScales(VolumeEffectOf(ga, va, vb), MarginEffectOf(ga, va, gb, vb), c,
                  VolumeEffectOf(ga', va', vb'), MarginEffectOf(ga', va', gb', vb'));
    } else {
      EffectsKeepWithVolume(ga, va, gb, vb, c);
    }
  }

  lemma ScaledLabel(prior: Breakdown, current: Breakdown, key: string, m: Metric, c: real)
    requires c > 0.0 && (m == GP || m == Volume)
    ensures var r, s := MergedAt(key, prior, current), MergedAt(key, Scaled(prior, m, c), Scaled(current, m, c));
            Label(VolumeEffect(s), MarginEffect(s)) == Label(VolumeEffect(r), MarginEffect(r))
  {
    var a, b, a', b' := Lookup(prior, key), Lookup(current, key),
                        Lookup(Scaled(prior, m, c), key), Lookup(Scaled(current, m, c), key);
    LabelFromSums(prior, current, key);
    LabelFromSums(Scaled(prior, m, c), Scaled(current, m, c), key);
    ScaledSum(prior, key, m, c, GP);
    ScaledSum(prior, key, m, c, Volume);
    ScaledSum(current, key, m, c, GP);
    ScaledSum(current, key, m, c, Volume);
    LabelOfScales(m, c, Sum(a, GP), Sum(a, Volume), Sum(b, GP), Sum(b, Volume),
                  Sum(a', GP), Sum(a', Volume), Sum(b', GP), Sum(b', Volume));
  }

  lemma ScaledStatus(prior: Breakdown, current: Breakdown, key: string, m: Metric, c: real)
    ensures StatusOf(key, Scaled(prior, m, c), Scaled(current, m, c)) == StatusOf(key, prior, current)
  {
    ScaledLookup(prior, key, m, c);
    ScaledLookup(current, key, m, c);
  }

  lemma MergedAtHead(key: string, prior: Breakdown, current: Breakdown)
    ensures MergedAt(key, prior, current).key == key
    ensures MergedAt(key, prior, current).status == StatusOf(key, prior, current)
  {
  }

  /** Counting gross profit in another currency, or volume in another unit, in
      both months, changes no row's key, status or driver, nor the rows' order. */
  lemma DriverIgnoresUnits(prior: Breakdown, current: Breakdown, key: string, m: Metric, c: real)
    requires c > 0.0 && (m == GP || m == Volume)
    ensures SortedKeys(Scaled(prior, m, c) + Scaled(current, m, c)) == SortedKeys(prior + current)
    ensures var r, s := MergedAt(key, prior, current), MergedAt(key, Scaled(prior, m, c), Scaled(current, m, c));
            s.key == r.key && s.status == r.status && DriverOf(s) == DriverOf(r)
  {
    assert Scaled(prior, m, c) + Scaled(current, m, c) == Scaled(prior + current, m, c);
    ScaledKeys(prior + current, m, c);
    ScaledStatus(prior, current, key, m, c);
    ScaledLabel(prior, current, key, m, c);
    MergedAtHead(key, prior, current);
    MergedAtHead(key, Scaled(prior, m, c), Scaled(current, m, c));
    SameDriver(MergedAt(key, prior, current), MergedAt(key, Scaled(prior, m, c), Scaled(current, m, c)));
  }

  lemma SameDriver(r: MergedRow, s: MergedRow)
    requires r.status == s.status
    requires Label(VolumeEffect(s), MarginEffect(s)) == Label(VolumeEffect(r), MarginEffect(r))
    ensures DriverOf(s) == DriverOf(r)
  {
  }
}
