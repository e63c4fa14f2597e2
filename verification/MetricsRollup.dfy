/**
 Rolling observations up into summary rows and summary rows into coarser ones (`_aggregate_from_source` and
 `_aggregate_from_summary` in metrics_retention.py). The model follows one value column through all its
 aggregates: COUNT(*), SUM, MIN, MAX, AVG with its own denominator, and COUNT(DISTINCT) of a hash column.
 */
module MetricsRollup {
  import opened Wrappers
  import opened SqlAggregates

  const BUCKET_1M := 60
  const BUCKET_10M := 600
  const BUCKET_15M := 900

  /** The values of the grouping columns; NULLs group together. */
  type Group = seq<Option<string>>

  datatype Sample = Sample(ts: real, group: Group, value: Cell, hash: Option<string>)

  datatype Key = Key(bucket: int, group: Group)

  datatype Row = Row(
    key: Key, samples: Cell, total: Cell, low: Cell, high: Cell, mean: Cell, meanCount: Cell, unique: Cell)

  // ---------------------------------------------------------------- buckets

  /** CAST(x AS INTEGER) truncates towards zero. */
  function Truncate(x: real): int {
    if x >= 0.0 then x.Floor else -((-x).Floor)
  }

  function Bucket(ts: real, width: int): int
    requires width > 0
  {
    Truncate(ts / width as real) * width
  }

  function Quotient(t: real, w: int): int
    requires w > 0
  {
    (t / w as real).Floor
  }

  function KeyOf(x: Sample, width: int): Key
    requires width > 0
  {
    Key(Bucket(x.ts, width), x.group)
  }

  function Coarser(k: Key, width: int): Key
    requires width > 0
  {
    Key(Bucket(k.bucket as real, width), k.group)
  }

  lemma FloorIff(x: real, q: int)
    ensures x.Floor == q <==> q as real <= x < (q + 1) as real
  {
  }

  lemma ScaleLess(a: real, x: real, r: real)
    requires r > 0.0
    ensures a <= x <==> a * r <= x * r
  {
    if a <= x {
      assert (x - a) * r >= 0.0;
    } else {
      assert (a - x) * r > 0.0;
    }
  }

  lemma AtMostQuotient(t: real, w: int, q: int)
    requires w > 0
    ensures q as real <= t / w as real <==> (q * w) as real <= t
  {
    ScaleLess(q as real, t / w as real, w as real);
  }

  /** The quotient, without division. */
  lemma QuotientIff(t: real, w: int, q: int)
    requires w > 0
    ensures Quotient(t, w) == q <==> (q * w) as real <= t < ((q + 1) * w) as real
  {
    AtMostQuotient(t, w, q);
    AtMostQuotient(t, w, q + 1);
    FloorIff(t / w as real, q);
  }

  lemma BucketOfNegative(ts: real, width: int)
    requires ts <= 0.0 && width > 0
    ensures Bucket(ts, width) == -(Quotient(-ts, width) * width)
  {
    AtMostQuotient(-ts, width, 0);
    Negated(ts, width as real);
    AtMostQuotient(ts, width, 0);
  }

  lemma Negated(t: real, r: real)
    requires r > 0.0
    ensures -(t / r) == (-t) / r
  {
  }

  /** No sample is newer than the end of its bucket. */
  lemma BucketEndsAfter(ts: real, width: int)
    requires width > 0
    ensures ts < (Bucket(ts, width) + width) as real
  {
    if ts >= 0.0 {
      var q := Quotient(ts, width);
      QuotientIff(ts, width, q);
      assert (q + 1) * width == q * width + width;
    } else {
      var q := Quotient(-ts, width);
      BucketOfNegative(ts, width);
      QuotientIff(-ts, width, q);
    }
  }

  /** The bucket of a time is the interval of the given width, on a multiple of it, that holds the time; before zero
      it is named by its end. */
  lemma BucketHolds(ts: real, width: int) returns (n: int)
    requires width > 0
    ensures var b := Bucket(ts, width);
      && b == n * width
      && if ts >= 0.0 then b as real <= ts < (b + width) as real else (b - width) as real < ts <= b as real
  {
    var q := Quotient(if ts >= 0.0 then ts else -ts, width);
    QuotientIff(if ts >= 0.0 then ts else -ts, width, q);
    assert (q + 1) * width == q * width + width;
    n := if ts >= 0.0 then q else -q;
    if ts < 0.0 {
      BucketOfNegative(ts, width);
      assert -(q * width) == -q * width;
    }
  }

  /** The coarse bucket of a fine bucket is the coarse bucket of the sample, because the widths divide. */
  lemma CoarseOfFine(ts: real, fine: int, coarse: int)
    requires fine > 0 && coarse > 0 && coarse % fine == 0
    ensures Bucket(Bucket(ts, fine) as real, coarse) == Bucket(ts, coarse)
  {
    var t := if ts >= 0.0 then ts else -ts;
    var b := Quotient(t, fine) * fine;
    CoarseQuotient(t, fine, coarse);
    if ts < 0.0 {
      BucketOfNegative(ts, fine);
      BucketOfNegative(ts, coarse);
      BucketOfNegative(-(b as real), coarse);
    }
  }

  lemma CoarseQuotient(t: real, fine: int, coarse: int)
    requires t >= 0.0 && fine > 0 && coarse > 0 && coarse % fine == 0
    ensures var b := Quotient(t, fine) * fine;
      b >= 0 && Quotient(b as real, coarse) == Quotient(t, coarse)
  {
    var q, p := Quotient(t, fine), Quotient(t, coarse);
    QuotientIff(t, fine, q);
    QuotientIff(t, coarse, p);
    WholeMultiple(coarse, fine);
    Nested(p, q, coarse / fine, fine, coarse, t);
    QuotientIff((q * fine) as real, coarse, p);
  }

  lemma WholeMultiple(a: int, b: int)
    requires b > 0 && a % b == 0
    ensures a == a / b * b
  {
  }

  lemma Nested(p: int, q: int, m: int, fine: int, coarse: int, ts: real)
    requires fine > 0 && coarse == m * fine && ts >= 0.0
    requires (q * fine) as real <= ts < ((q + 1) * fine) as real
    requires (p * coarse) as real <= ts < ((p + 1) * coarse) as real
    ensures 0 <= q * fine && p * coarse <= q * fine < (p + 1) * coarse
  {
    assert p * coarse == (p * m) * fine && (p + 1) * coarse == ((p + 1) * m) * fine;
    SmallerFactor(0, q + 1, fine);
    LargerProduct(0, q, fine);
    SmallerFactor(p * m, q + 1, fine);
    SmallerFactor(q, (p + 1) * m, fine);
    LargerProduct(p * m, q, fine);
  }

  lemma SmallerFactor(a: int, b: int, w: int)
    requires w > 0 && a * w < b * w
    ensures a < b
  {
  }

  lemma LargerProduct(a: int, b: int, w: int)
    requires w > 0 && a <= b
    ensures a * w <= b * w
  {
  }

  // ---------------------------------------------------------------- the two queries, for one group

  function Values(xs: seq<Sample>): seq<Cell> {
    if xs == [] then [] else [xs[0].value] + Values(xs[1..])
  }

  function Hashes(xs: seq<Sample>): set<string> {
    if xs == [] then {} else (if xs[0].hash.Some? then {xs[0].hash.value} else {}) + Hashes(xs[1..])
  }

  /** The row that the query on the source table selects for the samples of one group. */
  function Summarise(k: Key, xs: seq<Sample>): Row {
    var v := Values(xs);
    Row(k, Some(|xs| as real), Fold(Add, v), Fold(Least, v), Fold(Greatest, v), Average(v), Some(NonNull(v) as real),
        Some(|Hashes(xs)| as real))
  }

  datatype Column = Samples | Total | Low | High | MeanCount | Unique | Weight | Weighted

  /** COALESCE(mean_count, CASE WHEN mean IS NULL THEN 0 ELSE sample_count END) */
  function Denominator(r: Row): Cell {
    if r.meanCount.Some? then r.meanCount else if r.mean.None? then Some(0.0) else r.samples
  }

  function At(r: Row, c: Column): Cell {
    match c
    case Samples => r.samples
    case Total => r.total
    case Low => r.low
    case High => r.high
    case MeanCount => r.meanCount
    case Unique => r.unique
    case Weight => Denominator(r)
    case Weighted => Times(r.mean, Denominator(r))
  }

  function Select(rows: seq<Row>, c: Column): seq<Cell> {
    if rows == [] then [] else [At(rows[0], c)] + Select(rows[1..], c)
  }

  function Aggregator(c: Column): Op {
    match c
    case Low => Least
    case High => Greatest
    case _ => Add
  }

  function Rolled(rows: seq<Row>, c: Column): Cell {
    Fold(Aggregator(c), Select(rows, c))
  }

  /** The row that the query on a summary table selects for the rows of one group. */
  function Merge(k: Key, rows: seq<Row>): Row {
    Row(k, Rolled(rows, Samples), Rolled(rows, Total), Rolled(rows, Low), Rolled(rows, High),
        Over(Rolled(rows, Weighted), Rolled(rows, Weight)), Rolled(rows, MeanCount), Rolled(rows, Unique))
  }

  // ---------------------------------------------------------------- what a row stands for

  /** Row r says of the samples xs exactly what the direct query says; only the distinct count is an estimate. */
  predicate Agrees(r: Row, k: Key, xs: seq<Sample>) {
    && xs != []
    && r.(unique := None) == Summarise(k, xs).(unique := None)
    && Estimates(r.unique, xs)
  }

  /** A distinct count that may count a hash once per piece. */
  predicate Estimates(u: Cell, xs: seq<Sample>) {
    u.Some? && |Hashes(xs)| as real <= u.value <= |xs| as real
  }

  lemma {:induction false} FewHashes(xs: seq<Sample>)
    ensures |Hashes(xs)| <= |xs|
  {
    if xs != [] {
      FewHashes(xs[1..]);
    }
  }

  lemma {:induction false} ValueOf(xs: seq<Sample>, c: Cell)
    ensures c in Values(xs) <==> exists x | x in xs :: x.value == c
  {
    if xs != [] {
      ValueOf(xs[1..], c);
      assert xs[0] in xs && forall x | x in xs :: x == xs[0] || x in xs[1..];
      assert forall x | x in xs[1..] :: x in xs;
    }
  }

  /** What such a row says of its samples: how many there are, bounds of their values that some sample meets, and a
      mean that accounts for the whole sum. */
  lemma RowSays(r: Row, k: Key, xs: seq<Sample>)
    requires Agrees(r, k, xs)
    ensures r.key == k && r.samples == Some(|xs| as real)
    ensures forall x | x in xs && x.value.Some? ::
      r.low.Some? && r.high.Some? && r.low.value <= x.value.value <= r.high.value
    ensures r.low.Some? ==> exists x | x in xs :: x.value == r.low
    ensures r.high.Some? ==> exists x | x in xs :: x.value == r.high
    ensures r.meanCount.Some? && Times(r.mean, r.meanCount) == r.total
    ensures r.total.None? <==> r.meanCount == Some(0.0)
  {
    var v := Values(xs);
    ExtremesAre(v);
    AverageTimesCount(v);
    SumIsNullIff(v);
    forall x | x in xs ensures x.value in v {
      ValueOf(xs, x.value);
    }
    if r.low.Some? {
      ValueOf(xs, r.low);
    }
    if r.high.Some? {
      ValueOf(xs, r.high);
    }
  }

  lemma SummariseAgrees(k: Key, xs: seq<Sample>)
    requires xs != []
    ensures Agrees(Summarise(k, xs), k, xs)
  {
    FewHashes(xs);
  }

  lemma {:induction false} ValuesAppend(a: seq<Sample>, b: seq<Sample>)
    ensures Values(a + b) == Values(a) + Values(b)
  {
    if a == [] {
      assert a + b == b;
    } else {
      assert (a + b)[0] == a[0] && (a + b)[1..] == a[1..] + b;
      ValuesAppend(a[1..], b);
    }
  }

  lemma {:induction false} HashesAppend(a: seq<Sample>, b: seq<Sample>)
    ensures Hashes(a + b) == Hashes(a) + Hashes(b)
  {
    if a == [] {
      assert a + b == b;
    } else {
      assert (a + b)[0] == a[0] && (a + b)[1..] == a[1..] + b;
      HashesAppend(a[1..], b);
    }
  }

  /** A summary row with the samples it stands for. The second half exists only in proofs. */
  datatype Entry = Entry(row: Row, from: seq<Sample>)

  function Rows(es: seq<Entry>): seq<Row> {
    if es == [] then [] else [es[0].row] + Rows(es[1..])
  }

  function All(es: seq<Entry>): seq<Sample> {
    if es == [] then [] else es[0].from + All(es[1..])
  }

  predicate Faithful(es: seq<Entry>) {
    es == [] || (Agrees(es[0].row, es[0].row.key, es[0].from) && Faithful(es[1..]))
  }

  /** What a column of the direct summary of xs holds. */
  function Direct(c: Column, xs: seq<Sample>): Cell {
    match c
    case Samples => Some(|xs| as real)
    case Low => Fold(Least, Values(xs))
    case High => Fold(Greatest, Values(xs))
    case MeanCount => Some(NonNull(Values(xs)) as real)
    case Weight => Some(NonNull(Values(xs)) as real)
    case _ => Fold(Add, Values(xs))
  }

  lemma ColumnOfAgreeing(r: Row, k: Key, xs: seq<Sample>, c: Column)
    requires Agrees(r, k, xs) && c != Unique
    ensures At(r, c) == Direct(c, xs)
  {
    AverageTimesCount(Values(xs));
  }

  /** A column of the direct summary can be computed in two pieces. */
  lemma DirectAppend(c: Column, a: seq<Sample>, b: seq<Sample>)
    requires c != Unique
    ensures Direct(c, a + b) == Join(Aggregator(c), Direct(c, a), Direct(c, b))
  {
    match c
    case Samples =>
    case MeanCount => CountsAppend(a, b);
    case Weight => CountsAppend(a, b);
    case _ => FoldsAppend(Aggregator(c), a, b);
  }

  lemma FoldsAppend(op: Op, a: seq<Sample>, b: seq<Sample>)
    ensures Fold(op, Values(a + b)) == Join(op, Fold(op, Values(a)), Fold(op, Values(b)))
  {
    ValuesAppend(a, b);
    FoldAppend(op, Values(a), Values(b));
  }

  lemma CountsAppend(a: seq<Sample>, b: seq<Sample>)
    ensures Some(NonNull(Values(a + b)) as real)
      == Join(Add, Some(NonNull(Values(a)) as real), Some(NonNull(Values(b)) as real))
  {
    ValuesAppend(a, b);
    NonNullAppend(Values(a), Values(b));
  }

  lemma RolledStep(r: Row, rows: seq<Row>, c: Column)
    ensures Rolled([r] + rows, c) == Join(Aggregator(c), At(r, c), Rolled(rows, c))
  {
    assert ([r] + rows)[1..] == rows;
    var cells := Select(rows, c);
    assert ([At(r, c)] + cells)[1..] == cells;
  }

  lemma {:induction false} RolledIsDirect(es: seq<Entry>, c: Column)
    requires es != [] && Faithful(es) && c != Unique
    ensures Rolled(Rows(es), c) == Direct(c, All(es))
  {
    ColumnOfAgreeing(es[0].row, es[0].row.key, es[0].from, c);
    RolledStep(es[0].row, Rows(es[1..]), c);
    if |es| == 1 {
      assert es[0].from + All(es[1..]) == es[0].from;
    } else {
      RolledIsDirect(es[1..], c);
      DirectAppend(c, es[0].from, All(es[1..]));
    }
  }

  lemma {:induction false} RolledUnique(es: seq<Entry>)
    requires es != [] && Faithful(es)
    ensures Estimates(Rolled(Rows(es), Unique), All(es))
  {
    RolledStep(es[0].row, Rows(es[1..]), Unique);
    if |es| == 1 {
      assert es[0].from + All(es[1..]) == es[0].from;
    } else {
      RolledUnique(es[1..]);
      EstimateAppend(es[0].row.unique, es[0].from, Rolled(Rows(es[1..]), Unique), All(es[1..]));
    }
  }

  lemma EstimateAppend(u: Cell, a: seq<Sample>, v: Cell, b: seq<Sample>)
    requires Estimates(u, a) && Estimates(v, b)
    ensures Estimates(Join(Add, u, v), a + b)
  {
    HashesAppend(a, b);
  }

  /** Merging summary rows gives, for every exact aggregate, what the direct query on all their samples gives. */
  lemma MergeAgrees(k: Key, es: seq<Entry>)
    requires es != [] && Faithful(es)
    ensures Agrees(Merge(k, Rows(es)), k, All(es))
  {
    var xs := All(es);
    assert xs != [];
    RolledIsDirect(es, Samples);
    RolledIsDirect(es, Total);
    RolledIsDirect(es, Low);
    RolledIsDirect(es, High);
    RolledIsDirect(es, MeanCount);
    RolledIsDirect(es, Weight);
    RolledIsDirect(es, Weighted);
    RolledUnique(es);
    SumIsNullIff(Values(xs));
  }

  /** Do the pieces name different hashes? */
  predicate Disjoint(es: seq<Entry>) {
    es == [] || (Hashes(es[0].from) * Hashes(All(es[1..])) == {} && Disjoint(es[1..]))
  }

  predicate CountedOnce(es: seq<Entry>) {
    es == [] || (es[0].row.unique == Some(|Hashes(es[0].from)| as real) && CountedOnce(es[1..]))
  }

  /** The one aggregate that is not kept: adding distinct counts is right exactly if no hash is in two pieces. */
  lemma {:induction false} DistinctCountExactIff(es: seq<Entry>)
    requires es != [] && CountedOnce(es)
    ensures Rolled(Rows(es), Unique).Some? && Rolled(Rows(es), Unique).value >= |Hashes(All(es))| as real
    ensures Rolled(Rows(es), Unique).value == |Hashes(All(es))| as real <==> Disjoint(es)
  {
    RolledStep(es[0].row, Rows(es[1..]), Unique);
    var a, b := Hashes(es[0].from), Hashes(All(es[1..]));
    HashesAppend(es[0].from, All(es[1..]));
    UnionSize(a, b);
    if |es| == 1 {
      assert Rolled(Rows(es), Unique) == Some(|a| as real);
    } else {
      DistinctCountExactIff(es[1..]);
      assert Rolled(Rows(es), Unique).value == |a| as real + Rolled(Rows(es[1..]), Unique).value;
    }
  }

  /** A packet heard in two successive minutes counts twice in their quarter hour. */
  lemma SharedHashCountsTwice(hash: string) returns (a: Sample, b: Sample)
    ensures KeyOf(a, BUCKET_1M) != KeyOf(b, BUCKET_1M) && KeyOf(a, BUCKET_15M) == KeyOf(b, BUCKET_15M)
    ensures var k := KeyOf(a, BUCKET_15M);
      && Merge(k, [Summarise(KeyOf(a, BUCKET_1M), [a]), Summarise(KeyOf(b, BUCKET_1M), [b])]).unique == Some(2.0)
      && Summarise(k, [a, b]).unique == Some(1.0)
  {
    a := Sample(0.0, [], None, Some(hash));
    b := a.(ts := 60.0);
    assert Hashes([a]) == {hash} && Hashes([b]) == {hash} && Hashes([a, b]) == {hash};
    var r, r' := Summarise(KeyOf(a, BUCKET_1M), [a]), Summarise(KeyOf(b, BUCKET_1M), [b]);
    RolledStep(r, [r'], Unique);
    RolledStep(r', [], Unique);
    assert [r] + [r'] == [r, r'] && [r'] + [] == [r'];
  }

  lemma UnionSize(a: set<string>, b: set<string>)
    ensures |a + b| <= |a| + |b|
    ensures |a + b| == |a| + |b| <==> a * b == {}
  {
    assert |a + b| == |a| + |b| - |a * b|;
    if |a * b| == 0 {
      assert a * b == {};
    }
  }

  // ---------------------------------------------------------------- the order of samples is immaterial

  lemma {:induction false} FoldMoves(op: Op, a: seq<Cell>, c: Cell, b: seq<Cell>)
    ensures Fold(op, a + [c] + b) == Join(op, c, Fold(op, a + b))
  {
    FoldAppend(op, a + [c], b);
    FoldAppend(op, a, [c]);
    FoldAppend(op, a, b);
    JoinCommutes(op, Fold(op, a), c);
    JoinAssociates(op, c, Fold(op, a), Fold(op, b));
  }

  lemma SampleMoves(a: seq<Sample>, x: Sample, b: seq<Sample>, op: Op)
    ensures Fold(op, Values(a + [x] + b)) == Join(op, x.value, Fold(op, Values(a + b)))
    ensures NonNull(Values(a + [x] + b)) == NonNull([x.value]) + NonNull(Values(a + b))
    ensures Hashes(a + [x] + b) == Hashes([x]) + Hashes(a + b)
  {
    ValuesAppend(a + [x], b);
    ValuesAppend(a, [x]);
    ValuesAppend(a, b);
    assert Values([x]) == [x.value];
    FoldMoves(op, Values(a), x.value, Values(b));
    NonNullAppend(Values(a) + [x.value], Values(b));
    NonNullAppend(Values(a), [x.value]);
    NonNullAppend(Values(a), Values(b));
    HashesAppend(a + [x], b);
    HashesAppend(a, [x]);
    HashesAppend(a, b);
  }

  /** Where the first sample of xs is in its permutation ys. */
  ghost function Split(xs: seq<Sample>, ys: seq<Sample>): (parts: (seq<Sample>, seq<Sample>))
    requires xs != [] && multiset(xs) == multiset(ys)
    ensures ys == parts.0 + [xs[0]] + parts.1
    ensures multiset(xs[1..]) == multiset(parts.0 + parts.1)
  {
    assert xs[0] in multiset(xs);
    var i :| 0 <= i < |ys| && ys[i] == xs[0];
    var (a, b) := (ys[..i], ys[i + 1..]);
    assert ys == a + [xs[0]] + b;
    assert xs == [xs[0]] + xs[1..];
    assert multiset(ys) == multiset(a) + multiset{xs[0]} + multiset(b);
    assert multiset(xs) == multiset{xs[0]} + multiset(xs[1..]);
    assert multiset(a + b) == multiset(a) + multiset(b) == multiset(xs) - multiset{xs[0]};
    (a, b)
  }

  lemma {:induction false} FoldPermuted(xs: seq<Sample>, ys: seq<Sample>, op: Op)
    requires multiset(xs) == multiset(ys)
    ensures |xs| == |ys| && Fold(op, Values(xs)) == Fold(op, Values(ys))
    ensures NonNull(Values(xs)) == NonNull(Values(ys)) && Hashes(xs) == Hashes(ys)
    decreases |xs|
  {
    assert |xs| == |multiset(xs)| == |multiset(ys)| == |ys|;
    if xs != [] {
      var (a, b) := Split(xs, ys);
      assert xs == [xs[0]] + xs[1..];
      FoldPermuted(xs[1..], a + b, op);
      SampleMoves([], xs[0], xs[1..], op);
      assert [] + [xs[0]] + xs[1..] == xs && [] + xs[1..] == xs[1..];
      SampleMoves(a, xs[0], b, op);
    }
  }

  lemma AgreesPermuted(r: Row, k: Key, xs: seq<Sample>, ys: seq<Sample>)
    requires Agrees(r, k, xs) && multiset(xs) == multiset(ys)
    ensures Agrees(r, k, ys)
  {
    FoldPermuted(xs, ys, Add);
    FoldPermuted(xs, ys, Least);
    FoldPermuted(xs, ys, Greatest);
  }
}
