/**
 Where a pass leaves things: which tier holds a sample after a pass in which no statement fails, by its age alone.
 The tiers are meant to be raw samples for seven hours, 1-minute rows for three days, and 15-minute rows from then on.
 */
module RetentionPass {
  import opened Wrappers
  import opened MetricsRollup
  import opened RetentionTiers
  import opened RetentionLedger

  const NO_FAULTS := Faults(None, None, None, false, false, false, false, false)

  // ---------------------------------------------------------------- the effect of the statements on one sample

  lemma {:induction false} BetweenTimes(xs: seq<Sample>, lo: real, hi: real, x: Sample)
    ensures Times(Between(xs, lo, hi), x) == if During(x.ts, lo, hi) then Times(xs, x) else 0
  {
    if xs != [] {
      BetweenTimes(xs[1..], lo, hi, x);
    }
  }

  /** Honest rows are selected with all or none of a sample, by its bucket. */
  lemma {:induction false} BetweenStands(es: seq<Entry>, w: int, lo: real, hi: real, x: Sample)
    requires w > 0 && AllHonest(es, w)
    ensures Stands(EntriesBetween(es, lo, hi), x)
         == if During(Bucket(x.ts, w) as real, lo, hi) then Stands(es, x) else 0
  {
    if es != [] {
      BetweenStands(es[1..], w, lo, hi, x);
      if es[0].row.key != KeyOf(x, w) {
        InTimes(es[0].from, w, es[0].row.key, x);
      }
    }
  }

  /** How often the raw table and each summary table represent x. */
  datatype Places = Places(raw: nat, e1: nat, e10: nat, e15: nat)

  function PlacesOf(l: Ledger, x: Sample): Places {
    Places(Times(l.raw, x), Stands(l.e1, x), Stands(l.e10, x), Stands(l.e15, x))
  }

  function Warmed(p: Places, moved: bool): Places {
    if moved then p.(raw := 0, e1 := p.e1 + p.raw) else p
  }

  function Cooled(p: Places, moved: bool): Places {
    if moved then p.(raw := 0, e15 := p.e15 + p.raw) else p
  }

  function Rolled(p: Places, moved: bool): Places {
    if moved then p.(e1 := 0, e15 := p.e15 + p.e1) else p
  }

  lemma SourceMoves(raw: seq<Sample>, es: seq<Entry>, lo: real, hi: real, w: int, x: Sample)
    requires w > 0
    ensures Times(Outside(raw, lo, hi), x) == if lo <= x.ts < hi then 0 else Times(raw, x)
    ensures Stands(es + SourceEntries(Between(raw, lo, hi), w), x)
         == Stands(es, x) + if lo <= x.ts < hi then Times(raw, x) else 0
  {
    BetweenTimes(raw, lo, hi, x);
    SelectedTimes(raw, lo, hi, x);
    SourceStands(Between(raw, lo, hi), w, x);
    StandsAppend(es, SourceEntries(Between(raw, lo, hi), w), x);
  }

  lemma WarmMoves(l: Ledger, lo: real, hi: real, x: Sample)
    ensures PlacesOf(Book(l, FromSource(lo, hi, M1)), x) == Warmed(PlacesOf(l, x), lo <= x.ts < hi)
  {
    SourceMoves(l.raw, l.e1, lo, hi, 60, x);
  }

  lemma ColdMoves(l: Ledger, lo: real, hi: real, x: Sample)
    ensures PlacesOf(Book(l, FromSource(lo, hi, M15)), x) == Cooled(PlacesOf(l, x), lo <= x.ts < hi)
  {
    SourceMoves(l.raw, l.e15, lo, hi, 900, x);
  }

  lemma RollupIs(l: Ledger, lo: real, hi: real)
    ensures Book(l, FromSummary(lo, hi, M1, M15)) ==
      l.(e1 := EntriesOutside(l.e1, lo, hi), e15 := l.e15 + SummaryEntries(EntriesBetween(l.e1, lo, hi), 900))
  {
  }

  lemma RollupMoves(l: Ledger, lo: real, hi: real, x: Sample)
    requires Sound(l)
    ensures PlacesOf(Book(l, FromSummary(lo, hi, M1, M15)), x)
         == Rolled(PlacesOf(l, x), lo <= Bucket(x.ts, 60) as real < hi)
  {
    RollupIs(l, lo, hi);
    EntriesMove(l.e1, l.e15, lo, hi, x);
  }

  lemma EntriesMove(es: seq<Entry>, to: seq<Entry>, lo: real, hi: real, x: Sample)
    requires AllHonest(es, 60)
    ensures var during := lo <= Bucket(x.ts, 60) as real < hi;
      && Stands(EntriesOutside(es, lo, hi), x) == (if during then 0 else Stands(es, x))
      && Stands(to + SummaryEntries(EntriesBetween(es, lo, hi), 900), x)
         == Stands(to, x) + (if during then Stands(es, x) else 0)
  {
    BetweenStands(es, 60, lo, hi, x);
    SelectedStands(es, lo, hi, x);
    SummaryStands(EntriesBetween(es, lo, hi), 900, x);
    StandsAppend(to, SummaryEntries(EntriesBetween(es, lo, hi), 900), x);
  }

  /** Expiry spares what is as new as the cutoff. */
  lemma ExpirySpares(l: Ledger, cutoff: real, x: Sample)
    requires Sound(l) && cutoff <= x.ts
    ensures PlacesOf(Unexpired(l, cutoff), x) == PlacesOf(l, x)
  {
    SinceTimes(l.raw, cutoff, x);
    AliveStands(l.e1, 60, cutoff, x);
    AliveStands(l.e10, 600, cutoff, x);
    AliveStands(l.e15, 900, cutoff, x);
  }

  // ---------------------------------------------------------------- the whole pass

  /** The ledger after raw samples from a to b went to 1-minute rows, others from c to d to 15-minute rows, and the
      1-minute rows from c to d after them. */
  function Rollups(l: Ledger, a: real, b: real, c: real, d: real): Ledger {
    var raw := Outside(l.raw, a, b);
    var e1 := l.e1 + SourceEntries(Between(l.raw, a, b), 60);
    Ledger(Outside(raw, c, d), EntriesOutside(e1, c, d), l.e10,
           l.e15 + SourceEntries(Between(raw, c, d), 900) + SummaryEntries(EntriesBetween(e1, c, d), 900))
  }

  lemma RollupsAre(l: Ledger, a: real, b: real, c: real, d: real)
    ensures Rollups(l, a, b, c, d)
         == Book(Book(Book(l, FromSource(a, b, M1)), FromSource(c, d, M15)), FromSummary(c, d, M1, M15))
  {
    RollupIs(Book(Book(l, FromSource(a, b, M1)), FromSource(c, d, M15)), c, d);
  }

  /** The ledger after the rollups of a pass without faults. */
  function Downsampled(l: Ledger, now: real, retention: real): Ledger {
    var (start, cool) := (now - retention, now - 259200.0);
    Rollups(l, Max(cool, start), now - 25200.0, start, cool)
  }

  lemma DownsampledIs(l: Ledger, now: real, retention: real)
    ensures Downsampled(l, now, retention)
         == Book(Book(Book(l, WarmStep(now, retention)), ColdStep(now, retention)), RollupStep(now, retention))
  {
    var (start, cool) := (now - retention, now - 259200.0);
    RollupsAre(l, Max(cool, start), now - 25200.0, start, cool);
  }

  function Unexpired(l: Ledger, cutoff: real): Ledger {
    Ledger(Since(l.raw, cutoff), AliveEntries(l.e1, 60, cutoff), AliveEntries(l.e10, 600, cutoff),
           AliveEntries(l.e15, 900, cutoff))
  }

  /** The ledger after a pass without faults. */
  function AfterPass(l: Ledger, now: real, retention: real): Ledger {
    Unexpired(Downsampled(l, now, retention), now - retention)
  }

  lemma {:induction false} BooksAppend(l: Ledger, a: seq<Action>, b: seq<Action>)
    ensures Books(l, a + b) == Books(Books(l, a), b)
    decreases |a|
  {
    if a == [] {
      assert a + b == b;
    } else {
      assert (a + b)[0] == a[0] && (a + b)[1..] == a[1..] + b;
      BooksAppend(Book(l, a[0]), a[1..], b);
    }
  }

  lemma RollupBooks(l: Ledger, w: Action, c: Action, r: Action, rest: seq<Action>)
    ensures Books(l, [w] + [c] + [r] + rest) == Books(Book(Book(Book(l, w), c), r), rest)
  {
    BooksAppend(l, [w] + [c] + [r], rest);
    BooksAppend(l, [w] + [c], [r]);
    BooksAppend(l, [w], [c]);
    assert [w][1..] == [] && [c][1..] == [] && [r][1..] == [];
  }

  lemma ExpiryBooks(l: Ledger, cutoff: real)
    ensures Books(l, ExpireSteps(cutoff, NO_FAULTS)) == Unexpired(l, cutoff)
  {
    var (a, b) := (ExpireRaw(cutoff), ExpireSummary(M1, cutoff));
    var (c, d) := (ExpireSummary(M10, cutoff), ExpireSummary(M15, cutoff));
    RollupBooks(l, a, b, c, [d]);
    assert [d][1..] == [];
  }

  /** That is what the statements of the pass do. */
  lemma PassIs(l: Ledger, now: real, retention: real)
    ensures Books(l, PassSteps(now, retention, NO_FAULTS)) == AfterPass(l, now, retention)
  {
    var (w, c, r) := (WarmStep(now, retention), ColdStep(now, retention), RollupStep(now, retention));
    RollupBooks(l, w, c, r, ExpireSteps(now - retention, NO_FAULTS));
    DownsampledIs(l, now, retention);
    ExpiryBooks(Downsampled(l, now, retention), now - retention);
  }

  /** Where the copies of a retained sample are after a pass, from where they were before; `b` is its minute. */
  function Tiered(p: Places, ts: real, b: real, now: real, retention: real): Places {
    var rolledUp := now - retention <= b < now - 259200.0;
    var minute := p.e1 + (if now - 259200.0 <= ts < now - 25200.0 then p.raw else 0);
    Places(
      if ts >= now - 25200.0 then p.raw else 0,
      if rolledUp then 0 else minute,
      p.e10,
      p.e15 + (if ts < now - 259200.0 then p.raw else 0) + (if rolledUp then minute else 0))
  }

  lemma MovesAdd(p: Places, ts: real, b: real, now: real, retention: real)
    requires now - retention <= ts
    ensures Rolled(Cooled(Warmed(p, Max(now - 259200.0, now - retention) <= ts < now - 25200.0),
                          now - retention <= ts < now - 259200.0),
                   now - retention <= b < now - 259200.0)
         == Tiered(p, ts, b, now, retention)
  {
  }

  /** A pass without faults leaves each copy of a retained sample in the tier of its age: raw below seven hours,
      in a 1-minute row below three days, in a 15-minute row beyond, or as soon as its minute began then. */
  lemma PassPlaces(l: Ledger, now: real, retention: real, x: Sample)
    requires Sound(l) && now - retention <= x.ts
    ensures PlacesOf(AfterPass(l, now, retention), x)
         == Tiered(PlacesOf(l, x), x.ts, Bucket(x.ts, 60) as real, now, retention)
  {
    MovesOfPass(l, now, retention, x);
    ExpirySpares(Downsampled(l, now, retention), now - retention, x);
  }

  lemma MovesOfPass(l: Ledger, now: real, retention: real, x: Sample)
    requires Sound(l) && now - retention <= x.ts
    ensures var l3 := Downsampled(l, now, retention);
      Sound(l3) && PlacesOf(l3, x) == Tiered(PlacesOf(l, x), x.ts, Bucket(x.ts, 60) as real, now, retention)
  {
    var (w, c, r) := (WarmStep(now, retention), ColdStep(now, retention), RollupStep(now, retention));
    var l2 := RawMoves(l, w, c, x);
    DownsampledIs(l, now, retention);
    BookKeepsSound(l2, r);
    RollupMoves(l2, r.lo, r.hi, x);
    MovesAdd(PlacesOf(l, x), x.ts, Bucket(x.ts, 60) as real, now, retention);
  }

  lemma RawMoves(l: Ledger, w: Action, c: Action, x: Sample) returns (l2: Ledger)
    requires Sound(l) && w.FromSource? && w.target == M1 && c.FromSource? && c.target == M15
    ensures l2 == Book(Book(l, w), c) && Sound(l2)
    ensures PlacesOf(l2, x) == Cooled(Warmed(PlacesOf(l, x), w.lo <= x.ts < w.hi), c.lo <= x.ts < c.hi)
  {
    BookKeepsSound(l, w);
    BookKeepsSound(Book(l, w), c);
    WarmMoves(l, w.lo, w.hi, x);
    ColdMoves(Book(l, w), c.lo, c.hi, x);
    l2 := Book(Book(l, w), c);
  }

  /** Is x among the samples of some row with key k? */
  predicate Represented(es: seq<Entry>, x: Sample, k: Key) {
    es != [] && ((es[0].row.key == k && x in es[0].from) || Represented(es[1..], x, k))
  }

  lemma {:induction false} TimesIn(xs: seq<Sample>, x: Sample)
    ensures Times(xs, x) > 0 <==> x in xs
  {
    if xs != [] {
      TimesIn(xs[1..], x);
    }
  }

  lemma {:induction false} StandsIn(es: seq<Entry>, w: int, x: Sample)
    requires w > 0 && AllHonest(es, w) && Stands(es, x) > 0
    ensures Represented(es, x, Key(Bucket(x.ts, w), x.group))
  {
    if Times(es[0].from, x) > 0 {
      TimesIn(es[0].from, x);
      if es[0].row.key != KeyOf(x, w) {
        InTimes(es[0].from, w, es[0].row.key, x);
      }
    } else {
      StandsIn(es[1..], w, x);
    }
  }

  /** After a pass without faults, a raw sample within the retention is still raw if it is less than seven hours old.
      Older, it is in a 1-minute row of its own minute; unless it, or the start of its minute within the retention,
      is more than three days old: then it is in a 15-minute row of its own quarter hour. */
  lemma PassTiers(l: Ledger, now: real, retention: real, x: Sample)
    requires Sound(l) && x in l.raw && now - retention <= x.ts
    ensures var l' := AfterPass(l, now, retention);
      && Sound(l') && Shown(l') == Run(Shown(l), PassSteps(now, retention, NO_FAULTS))
      && (if x.ts >= now - 25200.0 then x in l'.raw
          else if x.ts < now - 259200.0 || now - retention <= Bucket(x.ts, 60) as real < now - 259200.0
          then Represented(l'.e15, x, Key(Bucket(x.ts, 900), x.group))
          else Represented(l'.e1, x, Key(Bucket(x.ts, 60), x.group)))
  {
    var l' := AfterPass(l, now, retention);
    PassShows(l, now, retention);
    PassPlaces(l, now, retention, x);
    TimesIn(l.raw, x);
    TimesIn(l'.raw, x);
    assert PlacesOf(l', x) == Tiered(PlacesOf(l, x), x.ts, Bucket(x.ts, 60) as real, now, retention);
    if x.ts < now - 25200.0 {
      if x.ts < now - 259200.0 || now - retention <= Bucket(x.ts, 60) as real < now - 259200.0 {
        StandsIn(l'.e15, 900, x);
      } else {
        StandsIn(l'.e1, 60, x);
      }
    }
  }

  lemma PassShows(l: Ledger, now: real, retention: real)
    requires Sound(l)
    ensures var l' := AfterPass(l, now, retention);
      Sound(l') && Shown(l') == Run(Shown(l), PassSteps(now, retention, NO_FAULTS))
  {
    PassIs(l, now, retention);
    BooksShowRun(l, PassSteps(now, retention, NO_FAULTS));
    BooksKeepSound(l, PassSteps(now, retention, NO_FAULTS));
  }

  lemma {:induction false} BooksKeepSound(l: Ledger, actions: seq<Action>)
    requires Sound(l)
    ensures Sound(Books(l, actions))
    decreases |actions|
  {
    if actions != [] {
      BookKeepsSound(l, actions[0]);
      BooksKeepSound(Book(l, actions[0]), actions[1..]);
    }
  }

  // ---------------------------------------------------------------- the tables after a pass

  /** The tables after the same rollups. */
  function RollupTables(t: Tables, a: real, b: real, c: real, d: real): Tables {
    var raw := Outside(t.raw, a, b);
    var m1 := t.m1 + SourceRows(Between(t.raw, a, b), 60);
    Tables(Outside(raw, c, d), RowsOutside(m1, c, d), t.m10,
           t.m15 + SourceRows(Between(raw, c, d), 900) + SummaryRows(RowsBetween(m1, c, d), 900))
  }

  lemma RollupActs(t: Tables, lo: real, hi: real)
    ensures Act(t, FromSummary(lo, hi, M1, M15)) ==
      t.(m1 := RowsOutside(t.m1, lo, hi), m15 := t.m15 + SummaryRows(RowsBetween(t.m1, lo, hi), 900))
  {
  }

  lemma RollupsAct(t: Tables, a: real, b: real, c: real, d: real)
    ensures RollupTables(t, a, b, c, d)
         == Act(Act(Act(t, FromSource(a, b, M1)), FromSource(c, d, M15)), FromSummary(c, d, M1, M15))
  {
    RollupActs(Act(Act(t, FromSource(a, b, M1)), FromSource(c, d, M15)), c, d);
  }

  /** The tables after the rollups of a pass without faults. */
  function DownsampledTables(t: Tables, now: real, retention: real): Tables {
    var (start, cool) := (now - retention, now - 259200.0);
    RollupTables(t, Max(cool, start), now - 25200.0, start, cool)
  }

  lemma DownsampledActs(t: Tables, now: real, retention: real)
    ensures DownsampledTables(t, now, retention)
         == Act(Act(Act(t, WarmStep(now, retention)), ColdStep(now, retention)), RollupStep(now, retention))
  {
    var (start, cool) := (now - retention, now - 259200.0);
    RollupsAct(t, Max(cool, start), now - 25200.0, start, cool);
  }

  lemma RollupRuns(t: Tables, w: Action, c: Action, r: Action, rest: seq<Action>)
    ensures Run(t, [w] + [c] + [r] + rest) == Run(Act(Act(Act(t, w), c), r), rest)
  {
    RunAppend(t, [w] + [c] + [r], rest);
    RunAppend(t, [w] + [c], [r]);
    RunAppend(t, [w], [c]);
    OneStep(t, false, w);
    OneStep(Act(t, w), false, c);
    OneStep(Act(Act(t, w), c), false, r);
  }

  lemma TablesAfterPass(t: Tables, now: real, retention: real)
    ensures Run(t, PassSteps(now, retention, NO_FAULTS))
         == ExpireAll(DownsampledTables(t, now, retention), now - retention)
  {
    var (w, c, r) := (WarmStep(now, retention), ColdStep(now, retention), RollupStep(now, retention));
    RollupRuns(t, w, c, r, ExpireSteps(now - retention, NO_FAULTS));
    DownsampledActs(t, now, retention);
    ExpireRuns(DownsampledTables(t, now, retention), now - retention);
  }

  function ExpireAll(t: Tables, cutoff: real): Tables {
    Tables(Since(t.raw, cutoff), Alive(t.m1, 60, cutoff), Alive(t.m10, 600, cutoff), Alive(t.m15, 900, cutoff))
  }

  lemma ExpireRuns(t: Tables, cutoff: real)
    ensures Run(t, ExpireSteps(cutoff, NO_FAULTS)) == ExpireAll(t, cutoff)
  {
    var (a, b) := (ExpireRaw(cutoff), ExpireSummary(M1, cutoff));
    var (c, d) := (ExpireSummary(M10, cutoff), ExpireSummary(M15, cutoff));
    RollupRuns(t, a, b, c, [d]);
    OneStep(Act(Act(Act(t, a), b), c), false, d);
  }

  predicate RawIsHot(xs: seq<Sample>, limit: real) {
    xs == [] || (xs[0].ts >= limit && RawIsHot(xs[1..], limit))
  }

  lemma {:induction false} RemainingAreHot(xs: seq<Sample>, start: real, cool: real, hot: real)
    requires cool <= hot
    ensures RawIsHot(Since(Outside(Outside(xs, Max(cool, start), hot), start, cool), start), hot)
  {
    if xs != [] {
      RemainingAreHot(xs[1..], start, cool, hot);
      var rest := Outside(xs[1..], Max(cool, start), hot);
      assert ([xs[0]] + rest)[1..] == rest;
      var rest2 := Outside(rest, start, cool);
      assert ([xs[0]] + rest2)[1..] == rest2;
      var rest3 := Since(rest2, start);
      assert ([xs[0]] + rest3)[1..] == rest3;
    }
  }

  /** Does no row start in the given range? */
  predicate NoRowIn(rows: seq<Row>, lo: real, hi: real) {
    rows == [] || (!(lo <= rows[0].key.bucket as real < hi) && NoRowIn(rows[1..], lo, hi))
  }

  /** Does every row's bucket end after the limit? */
  predicate EndAfter(rows: seq<Row>, width: int, limit: real) {
    rows == [] || ((rows[0].key.bucket + width) as real > limit && EndAfter(rows[1..], width, limit))
  }

  lemma {:induction false} OutsideHasNone(rows: seq<Row>, lo: real, hi: real)
    ensures NoRowIn(RowsOutside(rows, lo, hi), lo, hi)
  {
    if rows != [] {
      OutsideHasNone(rows[1..], lo, hi);
      assert ([rows[0]] + RowsOutside(rows[1..], lo, hi))[1..] == RowsOutside(rows[1..], lo, hi);
    }
  }

  lemma {:induction false} AliveEndAfter(rows: seq<Row>, width: int, cutoff: real, lo: real, hi: real)
    ensures EndAfter(Alive(rows, width, cutoff), width, cutoff)
    ensures NoRowIn(rows, lo, hi) ==> NoRowIn(Alive(rows, width, cutoff), lo, hi)
  {
    if rows != [] {
      AliveEndAfter(rows[1..], width, cutoff, lo, hi);
      assert ([rows[0]] + Alive(rows[1..], width, cutoff))[1..] == Alive(rows[1..], width, cutoff);
    }
  }

  /** Every raw sample is less than seven hours old, no 1-minute row that starts within the retention starts more than
      three days ago, and every row of every table ends within the retention. */
  predicate InTiers(t: Tables, now: real, retention: real) {
    && RawIsHot(t.raw, now - 25200.0)
    && NoRowIn(t.m1, now - retention, now - 259200.0)
    && EndAfter(t.m1, 60, now - retention)
    && EndAfter(t.m10, 600, now - retention)
    && EndAfter(t.m15, 900, now - retention)
  }

  lemma ExpiryReachesTiers(d: Tables, minutes: seq<Row>, now: real, retention: real)
    requires RawIsHot(Since(d.raw, now - retention), now - 25200.0)
    requires d.m1 == RowsOutside(minutes, now - retention, now - 259200.0)
    ensures InTiers(ExpireAll(d, now - retention), now, retention)
  {
    OutsideHasNone(minutes, now - retention, now - 259200.0);
    AliveEndAfter(d.m1, 60, now - retention, now - retention, now - 259200.0);
    AliveEndAfter(d.m10, 600, now - retention, 0.0, 0.0);
    AliveEndAfter(d.m15, 900, now - retention, 0.0, 0.0);
  }

  lemma ExpiredInTiers(t: Tables, now: real, retention: real)
    ensures InTiers(ExpireAll(DownsampledTables(t, now, retention), now - retention), now, retention)
  {
    RemainingAreHot(t.raw, now - retention, now - 259200.0, now - 25200.0);
    var minutes := t.m1 + SourceRows(Between(t.raw, Max(now - 259200.0, now - retention), now - 25200.0), 60);
    ExpiryReachesTiers(DownsampledTables(t, now, retention), minutes, now, retention);
  }

  /** Whatever the tables held, a pass without faults leaves them in their tiers. */
  lemma PassLeavesTiers(t: Tables, now: real, retention: real)
    ensures InTiers(Run(t, PassSteps(now, retention, NO_FAULTS)), now, retention)
  {
    TablesAfterPass(t, now, retention);
    ExpiredInTiers(t, now, retention);
  }
}
