/**
 The tables of one downsampled metric and the cleanup that moves its rows from tier to tier
 (`_aggregate_from_source`, `_aggregate_from_summary` and `cleanup_once` in metrics_retention.py).

 The functions say what each SQL statement does to the tables; `MetricTables` is the database that the
 statements update in place.
 */
module RetentionTiers {
  import opened Wrappers
  import opened MetricsRollup

  const TIER_HOT_SECONDS: real := 25200.0
  const TIER_COOL_SECONDS: real := 259200.0

  datatype Suffix = M1 | M10 | M15

  function Resolution(s: Suffix): (w: int)
    ensures w > 0
  {
    match s
    case M1 => BUCKET_1M
    case M10 => BUCKET_10M
    case M15 => BUCKET_15M
  }

  datatype Tables = Tables(raw: seq<Sample>, m1: seq<Row>, m10: seq<Row>, m15: seq<Row>)

  function Summary(t: Tables, s: Suffix): seq<Row> {
    match s
    case M1 => t.m1
    case M10 => t.m10
    case M15 => t.m15
  }

  function WithSummary(t: Tables, s: Suffix, rows: seq<Row>): Tables {
    match s
    case M1 => t.(m1 := rows)
    case M10 => t.(m10 := rows)
    case M15 => t.(m15 := rows)
  }

  // ---------------------------------------------------------------- WHERE and GROUP BY

  predicate During(ts: real, lo: real, hi: real) {
    lo <= ts < hi
  }

  function Between(xs: seq<Sample>, lo: real, hi: real): seq<Sample> {
    if xs == [] then [] else if During(xs[0].ts, lo, hi) then [xs[0]] + Between(xs[1..], lo, hi)
      else Between(xs[1..], lo, hi)
  }

  function Outside(xs: seq<Sample>, lo: real, hi: real): seq<Sample> {
    if xs == [] then [] else if During(xs[0].ts, lo, hi) then Outside(xs[1..], lo, hi)
      else [xs[0]] + Outside(xs[1..], lo, hi)
  }

  function Since(xs: seq<Sample>, cutoff: real): seq<Sample> {
    if xs == [] then []
    else if xs[0].ts < cutoff then Since(xs[1..], cutoff)
    else [xs[0]] + Since(xs[1..], cutoff)
  }

  function RowsBetween(rows: seq<Row>, lo: real, hi: real): seq<Row> {
    if rows == [] then []
    else if During(rows[0].key.bucket as real, lo, hi) then [rows[0]] + RowsBetween(rows[1..], lo, hi)
    else RowsBetween(rows[1..], lo, hi)
  }

  function RowsOutside(rows: seq<Row>, lo: real, hi: real): seq<Row> {
    if rows == [] then []
    else if During(rows[0].key.bucket as real, lo, hi) then RowsOutside(rows[1..], lo, hi)
    else [rows[0]] + RowsOutside(rows[1..], lo, hi)
  }

  /** Has the whole bucket passed the cutoff? */
  predicate Expired(k: Key, width: int, cutoff: real) {
    (k.bucket + width) as real <= cutoff
  }

  function Alive(rows: seq<Row>, width: int, cutoff: real): seq<Row> {
    if rows == [] then []
    else if Expired(rows[0].key, width, cutoff) then Alive(rows[1..], width, cutoff)
    else [rows[0]] + Alive(rows[1..], width, cutoff)
  }

  function Having(xs: seq<Sample>, w: int, k: Key): (r: seq<Sample>)
    requires w > 0
    ensures |r| <= |xs|
  {
    if xs == [] then []
    else if KeyOf(xs[0], w) == k then [xs[0]] + Having(xs[1..], w, k)
    else Having(xs[1..], w, k)
  }

  function Lacking(xs: seq<Sample>, w: int, k: Key): (r: seq<Sample>)
    requires w > 0
    ensures |r| <= |xs|
  {
    if xs == [] then []
    else if KeyOf(xs[0], w) == k then Lacking(xs[1..], w, k)
    else [xs[0]] + Lacking(xs[1..], w, k)
  }

  /** One summary row for every bucket and group among the samples. */
  function SourceRows(xs: seq<Sample>, w: int): seq<Row>
    requires w > 0
    decreases |xs|
  {
    if xs == [] then []
    else
      var k := KeyOf(xs[0], w);
      assert Lacking(xs, w, k) == Lacking(xs[1..], w, k);
      [Summarise(k, Having(xs, w, k))] + SourceRows(Lacking(xs, w, k), w)
  }

  function RowsWith(rows: seq<Row>, w: int, k: Key): (r: seq<Row>)
    requires w > 0
    ensures |r| <= |rows|
  {
    if rows == [] then []
    else if Coarser(rows[0].key, w) == k then [rows[0]] + RowsWith(rows[1..], w, k)
    else RowsWith(rows[1..], w, k)
  }

  function RowsWithout(rows: seq<Row>, w: int, k: Key): (r: seq<Row>)
    requires w > 0
    ensures |r| <= |rows|
  {
    if rows == [] then []
    else if Coarser(rows[0].key, w) == k then RowsWithout(rows[1..], w, k)
    else [rows[0]] + RowsWithout(rows[1..], w, k)
  }

  /** One coarser row for every coarser bucket and group among the rows. */
  function SummaryRows(rows: seq<Row>, w: int): seq<Row>
    requires w > 0
    decreases |rows|
  {
    if rows == [] then []
    else
      var k := Coarser(rows[0].key, w);
      assert RowsWithout(rows, w, k) == RowsWithout(rows[1..], w, k);
      [Merge(k, RowsWith(rows, w, k))] + SummaryRows(RowsWithout(rows, w, k), w)
  }

  // ---- what the grouping means

  function WithKey(rows: seq<Row>, k: Key): seq<Row> {
    if rows == [] then [] else (if rows[0].key == k then [rows[0]] else []) + WithKey(rows[1..], k)
  }

  lemma {:induction false} OtherSamples(xs: seq<Sample>, w: int, j: Key, k: Key)
    requires w > 0
    ensures Having(Lacking(xs, w, j), w, k) == if j == k then [] else Having(xs, w, k)
  {
    if xs != [] {
      OtherSamples(xs[1..], w, j, k);
      assert ([xs[0]] + Lacking(xs[1..], w, j))[1..] == Lacking(xs[1..], w, j);
    }
  }

  lemma {:induction false} OtherRows(rows: seq<Row>, w: int, j: Key, k: Key)
    requires w > 0
    ensures RowsWith(RowsWithout(rows, w, j), w, k) == if j == k then [] else RowsWith(rows, w, k)
  {
    if rows != [] {
      OtherRows(rows[1..], w, j, k);
      assert ([rows[0]] + RowsWithout(rows[1..], w, j))[1..] == RowsWithout(rows[1..], w, j);
    }
  }

  /** GROUP BY: a bucket and group gets one row, of all its samples, exactly if it has any. */
  lemma {:induction false} OneRowPerGroup(xs: seq<Sample>, w: int, k: Key)
    requires w > 0
    ensures var part := Having(xs, w, k);
      WithKey(SourceRows(xs, w), k) == if part == [] then [] else [Summarise(k, part)]
    decreases |xs|
  {
    if xs != [] {
      var j := KeyOf(xs[0], w);
      assert Lacking(xs, w, j) == Lacking(xs[1..], w, j);
      OneRowPerGroup(Lacking(xs, w, j), w, k);
      OtherSamples(xs, w, j, k);
    }
  }

  /** The same for rows that are rolled up further. */
  lemma {:induction false} OneRowPerCoarseGroup(rows: seq<Row>, w: int, k: Key)
    requires w > 0
    ensures var part := RowsWith(rows, w, k);
      WithKey(SummaryRows(rows, w), k) == if part == [] then [] else [Merge(k, part)]
    decreases |rows|
  {
    if rows != [] {
      var j := Coarser(rows[0].key, w);
      assert RowsWithout(rows, w, j) == RowsWithout(rows[1..], w, j);
      OneRowPerCoarseGroup(RowsWithout(rows, w, j), w, k);
      OtherRows(rows, w, j, k);
    }
  }

  // ---------------------------------------------------------------- the atomic steps

  datatype Action =
    | Insert(x: Sample)
    | FromSource(lo: real, hi: real, target: Suffix)
    | FromSummary(lo: real, hi: real, source: Suffix, target: Suffix)
    | ExpireRaw(cutoff: real)
    | ExpireSummary(suffix: Suffix, cutoff: real)

  /** `bucket_seconds % source_resolution` must be zero. */
  predicate Divides(source: Suffix, target: Suffix) {
    Resolution(target) % Resolution(source) == 0
  }

  function Act(t: Tables, a: Action): Tables {
    match a
    case Insert(x) => t.(raw := t.raw + [x])
    case FromSource(lo, hi, target) =>
      WithSummary(t, target, Summary(t, target) + SourceRows(Between(t.raw, lo, hi), Resolution(target)))
        .(raw := Outside(t.raw, lo, hi))
    case FromSummary(lo, hi, source, target) =>
      if !Divides(source, target) then t
      else
        var grown := WithSummary(t, target,
          Summary(t, target) + SummaryRows(RowsBetween(Summary(t, source), lo, hi), Resolution(target)));
        WithSummary(grown, source, RowsOutside(Summary(grown, source), lo, hi))
    case ExpireRaw(cutoff) => t.(raw := Since(t.raw, cutoff))
    case ExpireSummary(s, cutoff) => WithSummary(t, s, Alive(Summary(t, s), Resolution(s), cutoff))
  }

  function Run(t: Tables, actions: seq<Action>): Tables
    decreases |actions|
  {
    if actions == [] then t else Run(Act(t, actions[0]), actions[1..])
  }

  lemma {:induction false} RunAppend(t: Tables, a: seq<Action>, b: seq<Action>)
    ensures Run(t, a + b) == Run(Run(t, a), b)
    decreases |a|
  {
    if a == [] {
      assert a + b == b;
    } else {
      assert (a + b)[0] == a[0] && (a + b)[1..] == a[1..] + b;
      RunAppend(Act(t, a[0]), a[1..], b);
    }
  }

  // ---------------------------------------------------------------- one cleanup pass

  function Max(a: real, b: real): real {
    if a >= b then a else b
  }

  function WarmStep(now: real, retention: real): Action {
    FromSource(Max(now - TIER_COOL_SECONDS, now - retention), now - TIER_HOT_SECONDS, M1)
  }

  function ColdStep(now: real, retention: real): Action {
    FromSource(now - retention, now - TIER_COOL_SECONDS, M15)
  }

  function RollupStep(now: real, retention: real): Action {
    FromSummary(now - retention, now - TIER_COOL_SECONDS, M1, M15)
  }

  /** Which statements of a pass fail; and whether the pass as a whole is committed. */
  datatype Faults = Faults(
    warm: Option<nat>, cold: Option<nat>, rollup: Option<nat>,
    raw: bool, m1: bool, m10: bool, m15: bool, lost: bool)

  function Unless(fails: bool, a: Action): seq<Action> {
    if fails then [] else [a]
  }

  function DownsampleSteps(now: real, retention: real, f: Faults): seq<Action> {
    Unless(f.warm.Some?, WarmStep(now, retention)) + Unless(f.cold.Some?, ColdStep(now, retention))
    + Unless(f.rollup.Some?, RollupStep(now, retention))
  }

  function ExpireSteps(cutoff: real, f: Faults): seq<Action> {
    Unless(f.raw, ExpireRaw(cutoff)) + Unless(f.m1, ExpireSummary(M1, cutoff))
    + Unless(f.m10, ExpireSummary(M10, cutoff)) + Unless(f.m15, ExpireSummary(M15, cutoff))
  }

  /** The steps of a pass that take effect. */
  function PassSteps(now: real, retention: real, f: Faults): seq<Action> {
    if f.lost then [] else DownsampleSteps(now, retention, f) + ExpireSteps(now - retention, f)
  }

  lemma OneStep(t: Tables, fails: bool, a: Action)
    ensures Run(t, Unless(fails, a)) == if fails then t else Act(t, a)
  {
    if !fails {
      assert Run(Act(t, a), [a][1..]) == Act(t, a);
    }
  }

  lemma {:induction false} NothingSelected(xs: seq<Sample>, lo: real, hi: real)
    ensures Between(xs, lo, hi) == [] ==> Outside(xs, lo, hi) == xs
  {
    if xs != [] {
      NothingSelected(xs[1..], lo, hi);
    }
  }

  lemma {:induction false} NoRowSelected(rows: seq<Row>, lo: real, hi: real)
    ensures RowsBetween(rows, lo, hi) == [] ==> RowsOutside(rows, lo, hi) == rows
  {
    if rows != [] {
      NoRowSelected(rows[1..], lo, hi);
    }
  }

  class MetricTables {
    var raw: seq<Sample>
    var m1: seq<Row>
    var m10: seq<Row>
    var m15: seq<Row>

    function View(): Tables
      reads this
    {
      Tables(raw, m1, m10, m15)
    }

    constructor ()
      ensures View() == Tables([], [], [], [])
    {
      raw, m1, m10, m15 := [], [], [], [];
    }

    method Restore(t: Tables)
      modifies this
      ensures View() == t
    {
      raw, m1, m10, m15 := t.raw, t.m1, t.m10, t.m15;
    }

    method InsertRows(s: Suffix, rows: seq<Row>)
      modifies this
      ensures View() == WithSummary(old(View()), s, Summary(old(View()), s) + rows)
    {
      match s {
        case M1 => m1 := m1 + rows;
        case M10 => m10 := m10 + rows;
        case M15 => m15 := m15 + rows;
      }
    }

    method DeleteRows(s: Suffix, lo: real, hi: real)
      modifies this
      ensures View() == WithSummary(old(View()), s, RowsOutside(Summary(old(View()), s), lo, hi))
    {
      match s {
        case M1 => m1 := RowsOutside(m1, lo, hi);
        case M10 => m10 := RowsOutside(m10, lo, hi);
        case M15 => m15 := RowsOutside(m15, lo, hi);
      }
    }

    /** `_aggregate_from_source` inside its savepoint. A fault n strikes after n summary rows are inserted;
        whatever was done until then is rolled back. */
    method AggregateFromSource(lo: real, hi: real, target: Suffix, fault: Option<nat>) returns (ok: bool)
      modifies this
      ensures View() == if ok then Act(old(View()), FromSource(lo, hi, target)) else old(View())
      ensures ok <==> fault.None?
    {
      var savepoint := View();
      var selected := Between(raw, lo, hi);
      if selected == [] {
        NothingSelected(raw, lo, hi);
        return fault.None?;
      }
      var rows := SourceRows(selected, Resolution(target));
      if fault.Some? {
        InsertRows(target, rows[..if fault.value <= |rows| then fault.value else |rows|]);
        Restore(savepoint);
        return false;
      }
      InsertRows(target, rows);
      raw := Outside(raw, lo, hi);
      ok := true;
    }

    /** `_aggregate_from_summary` inside its savepoint. */
    method AggregateFromSummary(lo: real, hi: real, source: Suffix, target: Suffix,
        fault: Option<nat>) returns (ok: bool)
      modifies this
      ensures View() == if ok then Act(old(View()), FromSummary(lo, hi, source, target)) else old(View())
      ensures ok <==> fault.None? && Divides(source, target)
    {
      var savepoint := View();
      if !Divides(source, target) {
        return false;
      }
      var selected := RowsBetween(Summary(View(), source), lo, hi);
      if selected == [] {
        NoRowSelected(Summary(View(), source), lo, hi);
        assert Summary(View(), target) + [] == Summary(View(), target);
        return fault.None?;
      }
      var rows := SummaryRows(selected, Resolution(target));
      if fault.Some? {
        InsertRows(target, rows[..if fault.value <= |rows| then fault.value else |rows|]);
        Restore(savepoint);
        return false;
      }
      InsertRows(target, rows);
      DeleteRows(source, lo, hi);
      ok := true;
    }

    /** One pass of `cleanup_once` over this metric. Faulty steps are logged and skipped; a fault of the
        connection itself rolls the pass back. */
    method CleanupOnce(now: real, retention: real, f: Faults)
      modifies this
      ensures View() == Run(old(View()), PassSteps(now, retention, f))
    {
      var begin := View();
      Downsample(now, retention, f);
      Expire(now - retention, f);
      RunAppend(begin, DownsampleSteps(now, retention, f), ExpireSteps(now - retention, f));
      if f.lost {
        Restore(begin);
      }
    }

    method Downsample(now: real, retention: real, f: Faults)
      modifies this
      ensures View() == Run(old(View()), DownsampleSteps(now, retention, f))
    {
      var (warm, cold, rollup) := (WarmStep(now, retention), ColdStep(now, retention), RollupStep(now, retention));
      ghost var t := View();
      OneStep(t, f.warm.Some?, warm);
      RunAppend(t, Unless(f.warm.Some?, warm), Unless(f.cold.Some?, cold));
      RunAppend(t, Unless(f.warm.Some?, warm) + Unless(f.cold.Some?, cold), Unless(f.rollup.Some?, rollup));
      var ok := AggregateFromSource(warm.lo, warm.hi, M1, f.warm);
      OneStep(View(), f.cold.Some?, cold);
      ok := AggregateFromSource(cold.lo, cold.hi, M15, f.cold);
      OneStep(View(), f.rollup.Some?, rollup);
      ok := AggregateFromSummary(rollup.lo, rollup.hi, M1, M15, f.rollup);
    }

    method Expire(cutoff: real, f: Faults)
      modifies this
      ensures View() == Run(old(View()), ExpireSteps(cutoff, f))
    {
      ghost var t := View();
      ghost var a, b := Unless(f.raw, ExpireRaw(cutoff)), Unless(f.m1, ExpireSummary(M1, cutoff));
      ghost var c, d := Unless(f.m10, ExpireSummary(M10, cutoff)), Unless(f.m15, ExpireSummary(M15, cutoff));
      RunAppend(t, a, b);
      RunAppend(t, a + b, c);
      RunAppend(t, a + b + c, d);
      OneStep(t, f.raw, ExpireRaw(cutoff));
      if !f.raw {
        raw := Since(raw, cutoff);
      }
      OneStep(View(), f.m1, ExpireSummary(M1, cutoff));
      if !f.m1 {
        m1 := Alive(m1, BUCKET_1M, cutoff);
      }
      OneStep(View(), f.m10, ExpireSummary(M10, cutoff));
      if !f.m10 {
        m10 := Alive(m10, BUCKET_10M, cutoff);
      }
      OneStep(View(), f.m15, ExpireSummary(M15, cutoff));
      if !f.m15 {
        m15 := Alive(m15, BUCKET_15M, cutoff);
      }
    }
  }
}
