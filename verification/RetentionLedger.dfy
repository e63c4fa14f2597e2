/**
 What retention keeps. The ledger is the tables with, for every summary row, the samples it stands for;
 dropping that bookkeeping gives the tables back, so what holds of the ledger holds of the tables.
 */
module RetentionLedger {
  import opened Wrappers
  import opened MetricsRollup
  import opened RetentionTiers

  datatype Ledger = Ledger(raw: seq<Sample>, e1: seq<Entry>, e10: seq<Entry>, e15: seq<Entry>)

  const EMPTY := Ledger([], [], [], [])

  function Shown(l: Ledger): Tables {
    Tables(l.raw, Rows(l.e1), Rows(l.e10), Rows(l.e15))
  }

  function Entries(l: Ledger, s: Suffix): seq<Entry> {
    match s
    case M1 => l.e1
    case M10 => l.e10
    case M15 => l.e15
  }

  function WithEntries(l: Ledger, s: Suffix, es: seq<Entry>): Ledger {
    match s
    case M1 => l.(e1 := es)
    case M10 => l.(e10 := es)
    case M15 => l.(e15 := es)
  }

  // ---------------------------------------------------------------- the steps on the ledger

  function EntriesBetween(es: seq<Entry>, lo: real, hi: real): seq<Entry> {
    if es == [] then []
    else if During(es[0].row.key.bucket as real, lo, hi) then [es[0]] + EntriesBetween(es[1..], lo, hi)
    else EntriesBetween(es[1..], lo, hi)
  }

  function EntriesOutside(es: seq<Entry>, lo: real, hi: real): seq<Entry> {
    if es == [] then []
    else if During(es[0].row.key.bucket as real, lo, hi) then EntriesOutside(es[1..], lo, hi)
    else [es[0]] + EntriesOutside(es[1..], lo, hi)
  }

  function AliveEntries(es: seq<Entry>, width: int, cutoff: real): seq<Entry> {
    if es == [] then []
    else if Expired(es[0].row.key, width, cutoff) then AliveEntries(es[1..], width, cutoff)
    else [es[0]] + AliveEntries(es[1..], width, cutoff)
  }

  function SourceEntries(xs: seq<Sample>, w: int): seq<Entry>
    requires w > 0
    decreases |xs|
  {
    if xs == [] then []
    else
      var k := KeyOf(xs[0], w);
      assert Lacking(xs, w, k) == Lacking(xs[1..], w, k);
      [Entry(Summarise(k, Having(xs, w, k)), Having(xs, w, k))] + SourceEntries(Lacking(xs, w, k), w)
  }

  function EntriesWith(es: seq<Entry>, w: int, k: Key): (r: seq<Entry>)
    requires w > 0
    ensures |r| <= |es|
  {
    if es == [] then []
    else if Coarser(es[0].row.key, w) == k then [es[0]] + EntriesWith(es[1..], w, k)
    else EntriesWith(es[1..], w, k)
  }

  function EntriesWithout(es: seq<Entry>, w: int, k: Key): (r: seq<Entry>)
    requires w > 0
    ensures |r| <= |es|
  {
    if es == [] then []
    else if Coarser(es[0].row.key, w) == k then EntriesWithout(es[1..], w, k)
    else [es[0]] + EntriesWithout(es[1..], w, k)
  }

  function SummaryEntries(es: seq<Entry>, w: int): seq<Entry>
    requires w > 0
    decreases |es|
  {
    if es == [] then []
    else
      var k := Coarser(es[0].row.key, w);
      assert EntriesWithout(es, w, k) == EntriesWithout(es[1..], w, k);
      var part := EntriesWith(es, w, k);
      [Entry(Merge(k, Rows(part)), All(part))] + SummaryEntries(EntriesWithout(es, w, k), w)
  }

  function Book(l: Ledger, a: Action): Ledger {
    match a
    case Insert(x) => l.(raw := l.raw + [x])
    case FromSource(lo, hi, target) =>
      WithEntries(l, target, Entries(l, target) + SourceEntries(Between(l.raw, lo, hi), Resolution(target)))
        .(raw := Outside(l.raw, lo, hi))
    case FromSummary(lo, hi, source, target) =>
      if !Divides(source, target) then l
      else
        var grown := WithEntries(l, target,
          Entries(l, target) + SummaryEntries(EntriesBetween(Entries(l, source), lo, hi), Resolution(target)));
        WithEntries(grown, source, EntriesOutside(Entries(grown, source), lo, hi))
    case ExpireRaw(cutoff) => l.(raw := Since(l.raw, cutoff))
    case ExpireSummary(s, cutoff) => WithEntries(l, s, AliveEntries(Entries(l, s), Resolution(s), cutoff))
  }

  function Books(l: Ledger, actions: seq<Action>): Ledger
    decreases |actions|
  {
    if actions == [] then l else Books(Book(l, actions[0]), actions[1..])
  }

  // ---------------------------------------------------------------- the ledger shows the tables

  lemma {:induction false} RowsAppend(a: seq<Entry>, b: seq<Entry>)
    ensures Rows(a + b) == Rows(a) + Rows(b)
  {
    if a == [] {
      assert a + b == b;
    } else {
      assert (a + b)[0] == a[0] && (a + b)[1..] == a[1..] + b;
      RowsAppend(a[1..], b);
    }
  }

  lemma {:induction false} RowsSelected(es: seq<Entry>, lo: real, hi: real)
    ensures Rows(EntriesBetween(es, lo, hi)) == RowsBetween(Rows(es), lo, hi)
    ensures Rows(EntriesOutside(es, lo, hi)) == RowsOutside(Rows(es), lo, hi)
  {
    if es != [] {
      RowsSelected(es[1..], lo, hi);
      assert Rows(es)[1..] == Rows(es[1..]);
    }
  }

  lemma {:induction false} RowsAlive(es: seq<Entry>, width: int, cutoff: real)
    ensures Rows(AliveEntries(es, width, cutoff)) == Alive(Rows(es), width, cutoff)
  {
    if es != [] {
      RowsAlive(es[1..], width, cutoff);
      assert Rows(es)[1..] == Rows(es[1..]);
    }
  }

  lemma {:induction false} RowsOfGroup(es: seq<Entry>, w: int, k: Key)
    requires w > 0
    ensures Rows(EntriesWith(es, w, k)) == RowsWith(Rows(es), w, k)
    ensures Rows(EntriesWithout(es, w, k)) == RowsWithout(Rows(es), w, k)
  {
    if es != [] {
      RowsOfGroup(es[1..], w, k);
      assert Rows(es)[1..] == Rows(es[1..]);
    }
  }

  lemma {:induction false} RowsOfSource(xs: seq<Sample>, w: int)
    requires w > 0
    ensures Rows(SourceEntries(xs, w)) == SourceRows(xs, w)
    decreases |xs|
  {
    if xs != [] {
      var k := KeyOf(xs[0], w);
      assert Lacking(xs, w, k) == Lacking(xs[1..], w, k);
      RowsOfSource(Lacking(xs, w, k), w);
    }
  }

  lemma {:induction false} RowsOfSummary(es: seq<Entry>, w: int)
    requires w > 0
    ensures Rows(SummaryEntries(es, w)) == SummaryRows(Rows(es), w)
    decreases |es|
  {
    if es != [] {
      var k := Coarser(es[0].row.key, w);
      assert EntriesWithout(es, w, k) == EntriesWithout(es[1..], w, k);
      RowsOfSummary(EntriesWithout(es, w, k), w);
      RowsOfGroup(es, w, k);
    }
  }

  lemma BookShowsAct(l: Ledger, a: Action)
    ensures Shown(Book(l, a)) == Act(Shown(l), a)
  {
    match a {
      case Insert(_) =>
      case FromSource(lo, hi, target) => BookShowsSource(l, lo, hi, target);
      case FromSummary(lo, hi, source, target) => BookShowsRollup(l, lo, hi, source, target);
      case ExpireRaw(_) =>
      case ExpireSummary(s, cutoff) => BookShowsExpiry(l, s, cutoff);
    }
  }

  lemma ShownWith(l: Ledger, s: Suffix, es: seq<Entry>)
    ensures Shown(WithEntries(l, s, es)) == WithSummary(Shown(l), s, Rows(es))
    ensures Summary(Shown(l), s) == Rows(Entries(l, s))
  {
  }

  lemma BookShowsSource(l: Ledger, lo: real, hi: real, target: Suffix)
    ensures Shown(Book(l, FromSource(lo, hi, target))) == Act(Shown(l), FromSource(lo, hi, target))
  {
    var part := SourceEntries(Between(l.raw, lo, hi), Resolution(target));
    RowsOfSource(Between(l.raw, lo, hi), Resolution(target));
    RowsAppend(Entries(l, target), part);
    ShownWith(l, target, Entries(l, target) + part);
  }

  lemma BookShowsExpiry(l: Ledger, s: Suffix, cutoff: real)
    ensures Shown(Book(l, ExpireSummary(s, cutoff))) == Act(Shown(l), ExpireSummary(s, cutoff))
  {
    RowsAlive(Entries(l, s), Resolution(s), cutoff);
    ShownWith(l, s, AliveEntries(Entries(l, s), Resolution(s), cutoff));
  }

  lemma BookShowsRollup(l: Ledger, lo: real, hi: real, source: Suffix, target: Suffix)
    ensures Shown(Book(l, FromSummary(lo, hi, source, target))) == Act(Shown(l), FromSummary(lo, hi, source, target))
  {
    if Divides(source, target) {
      var selected := EntriesBetween(Entries(l, source), lo, hi);
      RowsSelected(Entries(l, source), lo, hi);
      RowsOfSummary(selected, Resolution(target));
      RowsAppend(Entries(l, target), SummaryEntries(selected, Resolution(target)));
      var grown := WithEntries(l, target, Entries(l, target) + SummaryEntries(selected, Resolution(target)));
      RowsSelected(Entries(grown, source), lo, hi);
    }
  }

  lemma {:induction false} BooksShowRun(l: Ledger, actions: seq<Action>)
    ensures Shown(Books(l, actions)) == Run(Shown(l), actions)
    decreases |actions|
  {
    if actions != [] {
      BookShowsAct(l, actions[0]);
      BooksShowRun(Book(l, actions[0]), actions[1..]);
    }
  }

  // ---------------------------------------------------------------- the ledger is sound

  /** All samples belong to bucket and group k. */
  predicate AllIn(xs: seq<Sample>, w: int, k: Key)
    requires w > 0
  {
    xs == [] || (KeyOf(xs[0], w) == k && AllIn(xs[1..], w, k))
  }

  predicate Honest(e: Entry, w: int)
    requires w > 0
  {
    Agrees(e.row, e.row.key, e.from) && AllIn(e.from, w, e.row.key)
  }

  predicate AllHonest(es: seq<Entry>, w: int)
    requires w > 0
  {
    es == [] || (Honest(es[0], w) && AllHonest(es[1..], w))
  }

  /** Every summary row agrees with the samples it stands for, and they all lie in its bucket and group. */
  predicate Sound(l: Ledger) {
    AllHonest(l.e1, BUCKET_1M) && AllHonest(l.e10, BUCKET_10M) && AllHonest(l.e15, BUCKET_15M)
  }

  lemma {:induction false} HonestAppend(a: seq<Entry>, b: seq<Entry>, w: int)
    requires w > 0 && AllHonest(a, w) && AllHonest(b, w)
    ensures AllHonest(a + b, w)
  {
    if a == [] {
      assert a + b == b;
    } else {
      assert (a + b)[0] == a[0] && (a + b)[1..] == a[1..] + b;
      HonestAppend(a[1..], b, w);
    }
  }

  lemma {:induction false} HonestSelected(es: seq<Entry>, w: int, lo: real, hi: real)
    requires w > 0 && AllHonest(es, w)
    ensures AllHonest(EntriesBetween(es, lo, hi), w) && AllHonest(EntriesOutside(es, lo, hi), w)
  {
    if es != [] {
      HonestSelected(es[1..], w, lo, hi);
    }
  }

  lemma {:induction false} HonestAlive(es: seq<Entry>, w: int, cutoff: real)
    requires w > 0 && AllHonest(es, w)
    ensures AllHonest(AliveEntries(es, w, cutoff), w)
  {
    if es != [] {
      HonestAlive(es[1..], w, cutoff);
    }
  }

  lemma {:induction false} HonestOfGroup(es: seq<Entry>, v: int, w: int, k: Key)
    requires v > 0 && w > 0 && AllHonest(es, v)
    ensures AllHonest(EntriesWith(es, w, k), v) && AllHonest(EntriesWithout(es, w, k), v)
  {
    if es != [] {
      HonestOfGroup(es[1..], v, w, k);
    }
  }

  lemma {:induction false} HonestIsFaithful(es: seq<Entry>, w: int)
    requires w > 0 && AllHonest(es, w)
    ensures Faithful(es)
  {
    if es != [] {
      HonestIsFaithful(es[1..], w);
    }
  }

  lemma {:induction false} HavingIsIn(xs: seq<Sample>, w: int, k: Key)
    requires w > 0
    ensures AllIn(Having(xs, w, k), w, k)
  {
    if xs != [] {
      HavingIsIn(xs[1..], w, k);
      assert ([xs[0]] + Having(xs[1..], w, k))[1..] == Having(xs[1..], w, k);
    }
  }

  lemma {:induction false} SourceIsHonest(xs: seq<Sample>, w: int)
    requires w > 0
    ensures AllHonest(SourceEntries(xs, w), w)
    decreases |xs|
  {
    if xs != [] {
      var k := KeyOf(xs[0], w);
      var part := Having(xs, w, k);
      assert Lacking(xs, w, k) == Lacking(xs[1..], w, k);
      SourceIsHonest(Lacking(xs, w, k), w);
      SummariseAgrees(k, part);
      HavingIsIn(xs, w, k);
    }
  }

  lemma {:induction false} InAppend(a: seq<Sample>, b: seq<Sample>, w: int, k: Key)
    requires w > 0 && AllIn(a, w, k) && AllIn(b, w, k)
    ensures AllIn(a + b, w, k)
  {
    if a == [] {
      assert a + b == b;
    } else {
      assert (a + b)[0] == a[0] && (a + b)[1..] == a[1..] + b;
      InAppend(a[1..], b, w, k);
    }
  }

  /** Samples of a fine bucket lie in the coarse bucket of that bucket. */
  lemma {:induction false} InCoarser(xs: seq<Sample>, v: int, w: int, k: Key)
    requires v > 0 && w > 0 && w % v == 0 && AllIn(xs, v, k)
    ensures AllIn(xs, w, Coarser(k, w))
  {
    if xs != [] {
      CoarseOfFine(xs[0].ts, v, w);
      InCoarser(xs[1..], v, w, k);
    }
  }

  lemma {:induction false} GroupIsIn(es: seq<Entry>, v: int, w: int, k: Key)
    requires v > 0 && w > 0 && w % v == 0 && AllHonest(es, v)
    ensures AllIn(All(EntriesWith(es, w, k)), w, k)
  {
    if es != [] {
      GroupIsIn(es[1..], v, w, k);
      if Coarser(es[0].row.key, w) == k {
        var rest := EntriesWith(es[1..], w, k);
        InCoarser(es[0].from, v, w, es[0].row.key);
        InAppend(es[0].from, All(rest), w, k);
        assert ([es[0]] + rest)[1..] == rest;
      }
    }
  }

  lemma {:induction false} SummaryIsHonest(es: seq<Entry>, v: int, w: int)
    requires v > 0 && w > 0 && w % v == 0 && AllHonest(es, v)
    ensures AllHonest(SummaryEntries(es, w), w)
    decreases |es|
  {
    if es != [] {
      var k := Coarser(es[0].row.key, w);
      var part := EntriesWith(es, w, k);
      assert EntriesWithout(es, w, k) == EntriesWithout(es[1..], w, k);
      HonestOfGroup(es, v, w, k);
      SummaryIsHonest(EntriesWithout(es, w, k), v, w);
      HonestIsFaithful(part, v);
      MergeAgrees(k, part);
      GroupIsIn(es, v, w, k);
    }
  }

  lemma SoundWith(l: Ledger, s: Suffix, es: seq<Entry>)
    requires Sound(l) && AllHonest(es, Resolution(s))
    ensures Sound(WithEntries(l, s, es))
  {
  }

  lemma BookKeepsSound(l: Ledger, a: Action)
    requires Sound(l)
    ensures Sound(Book(l, a))
  {
    match a {
      case Insert(_) =>
      case FromSource(lo, hi, target) =>
        var rolled := SourceEntries(Between(l.raw, lo, hi), Resolution(target));
        SourceIsHonest(Between(l.raw, lo, hi), Resolution(target));
        HonestAppend(Entries(l, target), rolled, Resolution(target));
        SoundWith(l, target, Entries(l, target) + rolled);
      case FromSummary(lo, hi, source, target) => RollupKeepsSound(l, lo, hi, source, target);
      case ExpireRaw(_) =>
      case ExpireSummary(s, cutoff) =>
        HonestAlive(Entries(l, s), Resolution(s), cutoff);
        SoundWith(l, s, AliveEntries(Entries(l, s), Resolution(s), cutoff));
    }
  }

  lemma RollupKeepsSound(l: Ledger, lo: real, hi: real, source: Suffix, target: Suffix)
    requires Sound(l)
    ensures Sound(Book(l, FromSummary(lo, hi, source, target)))
  {
    if Divides(source, target) {
      var selected := EntriesBetween(Entries(l, source), lo, hi);
      HonestSelected(Entries(l, source), Resolution(source), lo, hi);
      SummaryIsHonest(selected, Resolution(source), Resolution(target));
      HonestAppend(Entries(l, target), SummaryEntries(selected, Resolution(target)), Resolution(target));
      var grown := WithEntries(l, target, Entries(l, target) + SummaryEntries(selected, Resolution(target)));
      SoundWith(l, target, Entries(l, target) + SummaryEntries(selected, Resolution(target)));
      HonestSelected(Entries(grown, source), Resolution(source), lo, hi);
      SoundWith(grown, source, EntriesOutside(Entries(grown, source), lo, hi));
    }
  }

  // ---------------------------------------------------------------- conservation

  /** How often sample x is represented. */
  function Times(xs: seq<Sample>, x: Sample): nat {
    if xs == [] then 0 else (if xs[0] == x then 1 else 0) + Times(xs[1..], x)
  }

  function Stands(es: seq<Entry>, x: Sample): nat {
    if es == [] then 0 else Times(es[0].from, x) + Stands(es[1..], x)
  }

  function Held(l: Ledger, x: Sample): nat {
    Times(l.raw, x) + Stands(l.e1, x) + Stands(l.e10, x) + Stands(l.e15, x)
  }

  lemma {:induction false} TimesAppend(a: seq<Sample>, b: seq<Sample>, x: Sample)
    ensures Times(a + b, x) == Times(a, x) + Times(b, x)
  {
    if a == [] {
      assert a + b == b;
    } else {
      assert (a + b)[0] == a[0] && (a + b)[1..] == a[1..] + b;
      TimesAppend(a[1..], b, x);
    }
  }

  lemma {:induction false} StandsAppend(a: seq<Entry>, b: seq<Entry>, x: Sample)
    ensures Stands(a + b, x) == Stands(a, x) + Stands(b, x)
  {
    if a == [] {
      assert a + b == b;
    } else {
      assert (a + b)[0] == a[0] && (a + b)[1..] == a[1..] + b;
      StandsAppend(a[1..], b, x);
    }
  }

  lemma {:induction false} StandsIsTimes(es: seq<Entry>, x: Sample)
    ensures Times(All(es), x) == Stands(es, x)
  {
    if es != [] {
      StandsIsTimes(es[1..], x);
      TimesAppend(es[0].from, All(es[1..]), x);
    }
  }

  lemma {:induction false} SelectedTimes(xs: seq<Sample>, lo: real, hi: real, x: Sample)
    ensures Times(Between(xs, lo, hi), x) + Times(Outside(xs, lo, hi), x) == Times(xs, x)
  {
    if xs != [] {
      SelectedTimes(xs[1..], lo, hi, x);
    }
  }

  lemma {:induction false} GroupTimes(xs: seq<Sample>, w: int, k: Key, x: Sample)
    requires w > 0
    ensures Times(Having(xs, w, k), x) == if KeyOf(x, w) == k then Times(xs, x) else 0
    ensures Times(Having(xs, w, k), x) + Times(Lacking(xs, w, k), x) == Times(xs, x)
  {
    if xs != [] {
      GroupTimes(xs[1..], w, k, x);
    }
  }

  lemma {:induction false} SourceStands(xs: seq<Sample>, w: int, x: Sample)
    requires w > 0
    ensures Stands(SourceEntries(xs, w), x) == Times(xs, x)
    decreases |xs|
  {
    if xs != [] {
      var k := KeyOf(xs[0], w);
      var part := Having(xs, w, k);
      assert Lacking(xs, w, k) == Lacking(xs[1..], w, k);
      SourceStands(Lacking(xs, w, k), w, x);
      GroupTimes(xs, w, k, x);
    }
  }

  lemma {:induction false} SelectedStands(es: seq<Entry>, lo: real, hi: real, x: Sample)
    ensures Stands(EntriesBetween(es, lo, hi), x) + Stands(EntriesOutside(es, lo, hi), x) == Stands(es, x)
  {
    if es != [] {
      SelectedStands(es[1..], lo, hi, x);
    }
  }

  lemma {:induction false} GroupStands(es: seq<Entry>, w: int, k: Key, x: Sample)
    requires w > 0
    ensures Stands(EntriesWith(es, w, k), x) + Stands(EntriesWithout(es, w, k), x) == Stands(es, x)
  {
    if es != [] {
      GroupStands(es[1..], w, k, x);
    }
  }

  lemma {:induction false} SummaryStands(es: seq<Entry>, w: int, x: Sample)
    requires w > 0
    ensures Stands(SummaryEntries(es, w), x) == Stands(es, x)
    decreases |es|
  {
    if es != [] {
      var k := Coarser(es[0].row.key, w);
      var part := EntriesWith(es, w, k);
      assert EntriesWithout(es, w, k) == EntriesWithout(es[1..], w, k);
      SummaryStands(EntriesWithout(es, w, k), w, x);
      GroupStands(es, w, k, x);
      StandsIsTimes(part, x);
    }
  }

  lemma {:induction false} SinceTimes(xs: seq<Sample>, cutoff: real, x: Sample)
    ensures Times(Since(xs, cutoff), x) == if x.ts < cutoff then 0 else Times(xs, x)
  {
    if xs != [] {
      SinceTimes(xs[1..], cutoff, x);
    }
  }

  lemma {:induction false} InTimes(xs: seq<Sample>, w: int, k: Key, x: Sample)
    requires w > 0 && AllIn(xs, w, k) && KeyOf(x, w) != k
    ensures Times(xs, x) == 0
  {
    if xs != [] {
      InTimes(xs[1..], w, k, x);
    }
  }

  /** A bucket expires only when every sample in it is older than the cutoff. */
  lemma ExpiredAreOld(e: Entry, w: int, cutoff: real, x: Sample)
    requires w > 0 && Honest(e, w) && Expired(e.row.key, w, cutoff) && x.ts >= cutoff
    ensures Times(e.from, x) == 0
  {
    BucketEndsAfter(x.ts, w);
    InTimes(e.from, w, e.row.key, x);
  }

  lemma {:induction false} AliveStands(es: seq<Entry>, w: int, cutoff: real, x: Sample)
    requires w > 0 && AllHonest(es, w)
    ensures Stands(AliveEntries(es, w, cutoff), x) <= Stands(es, x)
    ensures x.ts >= cutoff ==> Stands(AliveEntries(es, w, cutoff), x) == Stands(es, x)
  {
    if es != [] {
      AliveStands(es[1..], w, cutoff, x);
      if Expired(es[0].row.key, w, cutoff) && x.ts >= cutoff {
        ExpiredAreOld(es[0], w, cutoff, x);
      }
    }
  }

  /** Does the step expire nothing as new as x? */
  predicate Spares(a: Action, x: Sample) {
    match a
    case ExpireRaw(cutoff) => x.ts >= cutoff
    case ExpireSummary(_, cutoff) => x.ts >= cutoff
    case _ => true
  }

  function Added(a: Action, x: Sample): nat {
    if a == Insert(x) then 1 else 0
  }

  lemma HeldWith(l: Ledger, s: Suffix, es: seq<Entry>, x: Sample)
    ensures Held(WithEntries(l, s, es), x) == Held(l, x) - Stands(Entries(l, s), x) + Stands(es, x)
  {
  }

  lemma BookConserves(l: Ledger, a: Action, x: Sample)
    requires Sound(l) && (a.FromSummary? ==> a.source != a.target)
    ensures Held(Book(l, a), x) <= Held(l, x) + Added(a, x)
    ensures Spares(a, x) ==> Held(Book(l, a), x) == Held(l, x) + Added(a, x)
  {
    match a {
      case Insert(y) =>
        TimesAppend(l.raw, [y], x);
        assert Times([y][1..], x) == 0;
      case FromSource(lo, hi, target) => SourceConserves(l, lo, hi, target, x);
      case FromSummary(lo, hi, source, target) => RollupConserves(l, lo, hi, source, target, x);
      case ExpireRaw(cutoff) => SinceTimes(l.raw, cutoff, x);
      case ExpireSummary(s, cutoff) =>
        AliveStands(Entries(l, s), Resolution(s), cutoff, x);
        HeldWith(l, s, AliveEntries(Entries(l, s), Resolution(s), cutoff), x);
    }
  }

  lemma SourceConserves(l: Ledger, lo: real, hi: real, target: Suffix, x: Sample)
    ensures Held(Book(l, FromSource(lo, hi, target)), x) == Held(l, x)
  {
    var part := SourceEntries(Between(l.raw, lo, hi), Resolution(target));
    SelectedTimes(l.raw, lo, hi, x);
    SourceStands(Between(l.raw, lo, hi), Resolution(target), x);
    StandsAppend(Entries(l, target), part, x);
    HeldWith(l, target, Entries(l, target) + part, x);
  }

  lemma RollupConserves(l: Ledger, lo: real, hi: real, source: Suffix, target: Suffix, x: Sample)
    requires source != target
    ensures Held(Book(l, FromSummary(lo, hi, source, target)), x) == Held(l, x)
  {
    if Divides(source, target) {
      var selected := EntriesBetween(Entries(l, source), lo, hi);
      var rolled := SummaryEntries(selected, Resolution(target));
      SummaryStands(selected, Resolution(target), x);
      StandsAppend(Entries(l, target), rolled, x);
      HeldWith(l, target, Entries(l, target) + rolled, x);
      var grown := WithEntries(l, target, Entries(l, target) + rolled);
      SelectedStands(Entries(l, source), lo, hi, x);
      HeldWith(grown, source, EntriesOutside(Entries(grown, source), lo, hi), x);
    }
  }

  // ---------------------------------------------------------------- whole runs

  /** The statements of a pass, each in a savepoint of its own. */
  datatype Statement = Warm | Cold | Rollup | OldRaw | OldSummary(suffix: Suffix)

  /** What happens to the tables: a sample arrives, or one statement of some pass takes effect. A run mixes them
      in any order, so samples arrive in the middle of passes, and any statements of a pass may be missing. */
  datatype Event = Arrives(x: Sample) | Cleans(now: real, retention: real, statement: Statement)

  function ActionOf(e: Event): (a: Action)
    ensures a.FromSummary? ==> a.source != a.target
  {
    match e
    case Arrives(x) => Insert(x)
    case Cleans(now, retention, Warm) => WarmStep(now, retention)
    case Cleans(now, retention, Cold) => ColdStep(now, retention)
    case Cleans(now, retention, Rollup) => RollupStep(now, retention)
    case Cleans(now, retention, OldRaw) => ExpireRaw(now - retention)
    case Cleans(now, retention, OldSummary(s)) => ExpireSummary(s, now - retention)
  }

  function StepsOf(run: seq<Event>): seq<Action> {
    if run == [] then [] else [ActionOf(run[0])] + StepsOf(run[1..])
  }

  function Arrived(run: seq<Event>): seq<Sample> {
    if run == [] then []
    else if run[0].Arrives? then [run[0].x] + Arrived(run[1..])
    else Arrived(run[1..])
  }

  /** Is x as new as the cutoff of every expiry of the run? */
  predicate Retained(run: seq<Event>, x: Sample) {
    run == [] || (Spares(ActionOf(run[0]), x) && Retained(run[1..], x))
  }

  /** Never more than before and new; and exactly that if spared. */
  predicate Kept(before: nat, arrived: nat, after: nat, spared: bool) {
    after <= before + arrived && (spared ==> after == before + arrived)
  }

  lemma KeptTwice(a: nat, n: nat, b: nat, s: bool, m: nat, c: nat, t: bool)
    requires Kept(a, n, b, s) && Kept(b, m, c, t)
    ensures Kept(a, n + m, c, s && t)
  {
  }

  lemma BooksOfRun(l: Ledger, run: seq<Event>)
    requires run != []
    ensures Books(l, StepsOf(run)) == Books(Book(l, ActionOf(run[0])), StepsOf(run[1..]))
  {
    assert StepsOf(run)[1..] == StepsOf(run[1..]);
  }

  lemma {:induction false} RunKeeps(l: Ledger, run: seq<Event>, x: Sample)
    requires Sound(l)
    ensures Sound(Books(l, StepsOf(run)))
    ensures Kept(Held(l, x), Times(Arrived(run), x), Held(Books(l, StepsOf(run)), x), Retained(run, x))
    decreases |run|
  {
    if run != [] {
      var a := ActionOf(run[0]);
      var l1 := Book(l, a);
      BookConserves(l, a, x);
      BookKeepsSound(l, a);
      BooksOfRun(l, run);
      RunKeeps(l1, run[1..], x);
      ArrivedStep(run, x);
      KeptTwice(Held(l, x), Added(a, x), Held(l1, x), Spares(a, x),
                Times(Arrived(run[1..]), x), Held(Books(l, StepsOf(run)), x), Retained(run[1..], x));
    }
  }

  /** The events of a pass that nothing interrupts. */
  function PassEvents(now: real, retention: real, f: Faults): seq<Event> {
    if f.lost then [] else DownsampleEvents(now, retention, f) + ExpireEvents(now, retention, f)
  }

  function DownsampleEvents(now: real, retention: real, f: Faults): seq<Event> {
    When(f.warm.None?, Cleans(now, retention, Warm)) + When(f.cold.None?, Cleans(now, retention, Cold))
    + When(f.rollup.None?, Cleans(now, retention, Rollup))
  }

  function ExpireEvents(now: real, retention: real, f: Faults): seq<Event> {
    When(!f.raw, Cleans(now, retention, OldRaw)) + When(!f.m1, Cleans(now, retention, OldSummary(M1)))
    + When(!f.m10, Cleans(now, retention, OldSummary(M10))) + When(!f.m15, Cleans(now, retention, OldSummary(M15)))
  }

  function When(c: bool, e: Event): seq<Event> {
    if c then [e] else []
  }

  /** A pass that nothing interrupts is such a run, whatever fails in it. */
  lemma PassIsRun(now: real, retention: real, f: Faults)
    ensures StepsOf(PassEvents(now, retention, f)) == PassSteps(now, retention, f)
  {
    if !f.lost {
      DownsampleIsRun(now, retention, f);
      ExpireIsRun(now, retention, f);
      StepsAppend(DownsampleEvents(now, retention, f), ExpireEvents(now, retention, f));
    }
  }

  lemma DownsampleIsRun(now: real, retention: real, f: Faults)
    ensures StepsOf(DownsampleEvents(now, retention, f)) == DownsampleSteps(now, retention, f)
  {
    OneStepOf(f.warm.None?, Cleans(now, retention, Warm));
    OneStepOf(f.cold.None?, Cleans(now, retention, Cold));
    OneStepOf(f.rollup.None?, Cleans(now, retention, Rollup));
    StepsOfThree(When(f.warm.None?, Cleans(now, retention, Warm)), When(f.cold.None?, Cleans(now, retention, Cold)),
                 When(f.rollup.None?, Cleans(now, retention, Rollup)));
  }

  lemma ExpireIsRun(now: real, retention: real, f: Faults)
    ensures StepsOf(ExpireEvents(now, retention, f)) == ExpireSteps(now - retention, f)
  {
    OneStepOf(!f.raw, Cleans(now, retention, OldRaw));
    OneStepOf(!f.m1, Cleans(now, retention, OldSummary(M1)));
    OneStepOf(!f.m10, Cleans(now, retention, OldSummary(M10)));
    OneStepOf(!f.m15, Cleans(now, retention, OldSummary(M15)));
    var (a, b) := (When(!f.raw, Cleans(now, retention, OldRaw)), When(!f.m1, Cleans(now, retention, OldSummary(M1))));
    var (c, d) := (When(!f.m10, Cleans(now, retention, OldSummary(M10))),
                   When(!f.m15, Cleans(now, retention, OldSummary(M15))));
    StepsOfThree(a, b, c);
    StepsAppend(a + b + c, d);
  }

  lemma StepsOfThree(a: seq<Event>, b: seq<Event>, c: seq<Event>)
    ensures StepsOf(a + b + c) == StepsOf(a) + StepsOf(b) + StepsOf(c)
  {
    StepsAppend(a, b);
    StepsAppend(a + b, c);
  }

  lemma OneStepOf(c: bool, e: Event)
    ensures StepsOf(When(c, e)) == Unless(!c, ActionOf(e))
  {
    if c {
      assert [e][1..] == [];
    }
  }

  lemma {:induction false} StepsAppend(a: seq<Event>, b: seq<Event>)
    ensures StepsOf(a + b) == StepsOf(a) + StepsOf(b)
  {
    if a == [] {
      assert a + b == b;
    } else {
      assert (a + b)[0] == a[0] && (a + b)[1..] == a[1..] + b;
      StepsAppend(a[1..], b);
    }
  }

  /** Over every interleaving of arrivals with the statements of passes, whatever statements fail: a sample is
      never represented more often than it arrived, and one that is as new as every expiry's cutoff is represented
      exactly as often as it arrived, by rows that are sound. */
  lemma RunConserves(l: Ledger, run: seq<Event>, x: Sample)
    requires Sound(l)
    ensures var l' := Books(l, StepsOf(run));
      && Sound(l') && Shown(l') == Run(Shown(l), StepsOf(run))
      && Held(l', x) <= Held(l, x) + Times(Arrived(run), x)
      && (Retained(run, x) ==> Held(l', x) == Held(l, x) + Times(Arrived(run), x))
  {
    BooksShowRun(l, StepsOf(run));
    RunKeeps(l, run, x);
  }

  lemma ArrivedStep(run: seq<Event>, x: Sample)
    requires run != []
    ensures Times(Arrived(run), x) == Added(ActionOf(run[0]), x) + Times(Arrived(run[1..]), x)
  {
    if run[0].Arrives? {
      assert Arrived(run)[1..] == Arrived(run[1..]);
    }
  }

  // ---------------------------------------------------------------- reading the tiers back

  /** All rows of a coarse bucket and group: the 1-minute and 15-minute partial rows, and the raw samples. */
  function Pieces(t: Tables, k: Key): seq<Row> {
    RowsWith(t.m1, BUCKET_15M, k) + RowsWith(t.m15, BUCKET_15M, k) + RawPiece(t.raw, k)
  }

  function RawPiece(raw: seq<Sample>, k: Key): seq<Row> {
    var part := Having(raw, BUCKET_15M, k);
    if part == [] then [] else [Summarise(k, part)]
  }

  function PieceEntries(l: Ledger, k: Key): seq<Entry> {
    EntriesWith(l.e1, BUCKET_15M, k) + EntriesWith(l.e15, BUCKET_15M, k) + RawEntry(l.raw, k)
  }

  function RawEntry(raw: seq<Sample>, k: Key): seq<Entry> {
    var part := Having(raw, BUCKET_15M, k);
    if part == [] then [] else [Entry(Summarise(k, part), part)]
  }

  lemma PiecesShown(l: Ledger, k: Key)
    ensures Rows(PieceEntries(l, k)) == Pieces(Shown(l), k)
  {
    RowsOfGroup(l.e1, BUCKET_15M, k);
    RowsOfGroup(l.e15, BUCKET_15M, k);
    RowsAppend(EntriesWith(l.e1, BUCKET_15M, k), EntriesWith(l.e15, BUCKET_15M, k));
    RowsAppend(EntriesWith(l.e1, BUCKET_15M, k) + EntriesWith(l.e15, BUCKET_15M, k), RawEntry(l.raw, k));
  }

  lemma {:induction false} FaithfulAppend(a: seq<Entry>, b: seq<Entry>)
    requires Faithful(a) && Faithful(b)
    ensures Faithful(a + b)
  {
    if a == [] {
      assert a + b == b;
    } else {
      assert (a + b)[0] == a[0] && (a + b)[1..] == a[1..] + b;
      FaithfulAppend(a[1..], b);
    }
  }

  lemma PiecesFaithful(l: Ledger, k: Key)
    requires Sound(l)
    ensures Faithful(PieceEntries(l, k))
  {
    HonestOfGroup(l.e1, BUCKET_1M, BUCKET_15M, k);
    HonestOfGroup(l.e15, BUCKET_15M, BUCKET_15M, k);
    HonestIsFaithful(EntriesWith(l.e1, BUCKET_15M, k), BUCKET_1M);
    HonestIsFaithful(EntriesWith(l.e15, BUCKET_15M, k), BUCKET_15M);
    FaithfulAppend(EntriesWith(l.e1, BUCKET_15M, k), EntriesWith(l.e15, BUCKET_15M, k));
    var part := Having(l.raw, BUCKET_15M, k);
    if part != [] {
      SummariseAgrees(k, part);
    }
    FaithfulAppend(EntriesWith(l.e1, BUCKET_15M, k) + EntriesWith(l.e15, BUCKET_15M, k), RawEntry(l.raw, k));
  }

  /** Rows of a coarse group stand for exactly the samples of that group. */
  lemma {:induction false} GroupHolds(es: seq<Entry>, v: int, k: Key, x: Sample)
    requires v > 0 && BUCKET_15M % v == 0 && AllHonest(es, v)
    ensures Stands(EntriesWith(es, BUCKET_15M, k), x) == if KeyOf(x, BUCKET_15M) == k then Stands(es, x) else 0
  {
    if es != [] {
      GroupHolds(es[1..], v, k, x);
      InCoarser(es[0].from, v, BUCKET_15M, es[0].row.key);
      if Coarser(es[0].row.key, BUCKET_15M) != KeyOf(x, BUCKET_15M) {
        InTimes(es[0].from, BUCKET_15M, Coarser(es[0].row.key, BUCKET_15M), x);
      }
    }
  }

  lemma PiecesHold(l: Ledger, k: Key, x: Sample)
    requires Sound(l) && l.e10 == []
    ensures Times(All(PieceEntries(l, k)), x) == if KeyOf(x, BUCKET_15M) == k then Held(l, x) else 0
  {
    var (a, b, c) := (EntriesWith(l.e1, BUCKET_15M, k), EntriesWith(l.e15, BUCKET_15M, k), RawEntry(l.raw, k));
    GroupHolds(l.e1, BUCKET_1M, k, x);
    GroupHolds(l.e15, BUCKET_15M, k, x);
    GroupTimes(l.raw, BUCKET_15M, k, x);
    StandsIsTimes(PieceEntries(l, k), x);
    StandsAppend(a, b, x);
    StandsAppend(a + b, c, x);
  }

  lemma {:induction false} TimesIsMultiplicity(xs: seq<Sample>, x: Sample)
    ensures Times(xs, x) == multiset(xs)[x]
  {
    if xs != [] {
      TimesIsMultiplicity(xs[1..], x);
      assert xs == [xs[0]] + xs[1..];
    }
  }

  /** Only rows of an older version are in the 10-minute table: passes never add any. */
  lemma {:induction false} RunLeavesLegacy(l: Ledger, run: seq<Event>)
    requires l.e10 == []
    ensures Books(l, StepsOf(run)).e10 == []
    decreases |run|
  {
    if run != [] {
      BooksOfRun(l, run);
      EventLeavesLegacy(l, run[0]);
      RunLeavesLegacy(Book(l, ActionOf(run[0])), run[1..]);
    }
  }

  lemma EventLeavesLegacy(l: Ledger, e: Event)
    requires l.e10 == []
    ensures Book(l, ActionOf(e)).e10 == []
  {
  }

  lemma {:induction false} AllRetained(xs: seq<Sample>, run: seq<Event>, x: Sample)
    requires EachRetained(xs, run) && Times(xs, x) > 0
    ensures Retained(run, x)
  {
    if xs[0] != x {
      AllRetained(xs[1..], run, x);
    }
  }

  predicate EachRetained(xs: seq<Sample>, run: seq<Event>)
    decreases |xs|
  {
    xs == [] || (Retained(run, xs[0]) && EachRetained(xs[1..], run))
  }

  /** For every run from empty tables and every quarter hour and group with samples, all of them as new as
      every cutoff: adding up the tiers gives what the direct query on the samples themselves gives. */
  lemma TiersAddUp(run: seq<Event>, k: Key)
    requires var direct := Having(Arrived(run), BUCKET_15M, k); direct != [] && EachRetained(direct, run)
    ensures var t := Run(Tables([], [], [], []), StepsOf(run));
      Agrees(Merge(k, Pieces(t, k)), k, Having(Arrived(run), BUCKET_15M, k))
  {
    var l := Books(EMPTY, StepsOf(run));
    var es, direct := PieceEntries(l, k), Having(Arrived(run), BUCKET_15M, k);
    RunConserves(EMPTY, run, direct[0]);
    forall x: Sample ensures multiset(All(es))[x] == multiset(direct)[x] {
      GroupArrived(run, k, x);
      TimesIsMultiplicity(All(es), x);
      TimesIsMultiplicity(direct, x);
    }
    assert multiset(All(es)) == multiset(direct);
    assert direct[0] in multiset(direct);
    PiecesShown(l, k);
    PiecesFaithful(l, k);
    MergeAgrees(k, es);
    AgreesPermuted(Merge(k, Rows(es)), k, All(es), direct);
  }

  lemma GroupArrived(run: seq<Event>, k: Key, x: Sample)
    requires EachRetained(Having(Arrived(run), BUCKET_15M, k), run)
    ensures Times(All(PieceEntries(Books(EMPTY, StepsOf(run)), k)), x) == Times(Having(Arrived(run), BUCKET_15M, k), x)
  {
    var l := Books(EMPTY, StepsOf(run));
    RunConserves(EMPTY, run, x);
    RunLeavesLegacy(EMPTY, run);
    PiecesHold(l, k, x);
    GroupTimes(Arrived(run), BUCKET_15M, k, x);
    if Times(Having(Arrived(run), BUCKET_15M, k), x) > 0 {
      AllRetained(Having(Arrived(run), BUCKET_15M, k), run, x);
    }
  }
}
