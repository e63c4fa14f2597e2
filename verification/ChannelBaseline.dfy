/**
 Expiry of the cumulative channel counters (the `channel_stats_history` rule of `cleanup_once` in
 metrics_retention.py). Counters are read as differences between consecutive snapshots of a channel, so
 expiry must leave, for each channel that is still active, the last snapshot before the window.
 */
module ChannelBaseline {
  import opened Wrappers

  /** One row; a NULL channel is None. */
  datatype Snapshot = Snapshot(rowid: nat, channel: Option<string>, ts: real, count: int)

  predicate Precedes(ts: real, rowid: nat, ts': real, rowid': nat) {
    ts < ts' || (ts == ts' && rowid < rowid')
  }

  predicate Candidate(r: Snapshot, channel: string, ts: real, rowid: nat) {
    r.channel == Some(channel) && Precedes(r.ts, r.rowid, ts, rowid)
  }

  /** The last snapshot of a channel before a given time and row: ORDER BY ts DESC, rowid DESC. */
  function Latest(rows: seq<Snapshot>, channel: string, ts: real, rowid: nat): Option<Snapshot> {
    if rows == [] then None
    else
      var rest := Latest(rows[1..], channel, ts, rowid);
      if Candidate(rows[0], channel, ts, rowid)
         && (rest.None? || Precedes(rest.value.ts, rest.value.rowid, rows[0].ts, rows[0].rowid))
      then Some(rows[0]) else rest
  }

  /** channel_id IN (SELECT channel_id ... WHERE ts >= cutoff): never true of a NULL. */
  predicate Active(rows: seq<Snapshot>, channel: string, cutoff: real) {
    rows != [] && ((rows[0].channel == Some(channel) && rows[0].ts >= cutoff) || Active(rows[1..], channel, cutoff))
  }

  predicate IsBaseline(all: seq<Snapshot>, r: Snapshot, cutoff: real) {
    && r.channel.Some? && Active(all, r.channel.value, cutoff)
    && var newest := Latest(all, r.channel.value, cutoff, 0);
       newest.Some? && newest.value.rowid == r.rowid
  }

  predicate Survives(all: seq<Snapshot>, r: Snapshot, cutoff: real) {
    r.ts >= cutoff || IsBaseline(all, r, cutoff)
  }

  function Surviving(all: seq<Snapshot>, rows: seq<Snapshot>, cutoff: real): seq<Snapshot> {
    if rows == [] then []
    else if Survives(all, rows[0], cutoff) then [rows[0]] + Surviving(all, rows[1..], cutoff)
    else Surviving(all, rows[1..], cutoff)
  }

  function Expire(rows: seq<Snapshot>, cutoff: real): seq<Snapshot> {
    Surviving(rows, rows, cutoff)
  }

  /** Rowids are primary keys. */
  predicate Keyed(rows: seq<Snapshot>) {
    rows == [] || (rows[0].rowid !in Ids(rows[1..]) && Keyed(rows[1..]))
  }

  function Ids(rows: seq<Snapshot>): set<nat> {
    if rows == [] then {} else {rows[0].rowid} + Ids(rows[1..])
  }

  class ChannelHistory {
    var rows: seq<Snapshot>

    constructor ()
      ensures rows == [] && Keyed(rows)
    {
      rows := [];
    }

    method Insert(r: Snapshot)
      requires r.rowid !in Ids(rows)
      modifies this
      ensures rows == old(rows) + [r]
      ensures Keyed(old(rows)) ==> Keyed(rows)
    {
      if Keyed(rows) {
        KeyedAppend(rows, r);
      }
      rows := rows + [r];
    }

    /** The DELETE: the window stays as it is with all its differences; before it, each channel that is still
        active keeps its newest snapshot and nothing else stays. */
    method ExpireOlder(cutoff: real)
      modifies this
      ensures rows == Expire(old(rows), cutoff)
      ensures Window(rows, cutoff) == Window(old(rows), cutoff)
      ensures Keyed(old(rows)) ==>
        && Keyed(rows)
        && (forall r | r in old(rows) && r.ts >= cutoff :: Delta(rows, r) == Delta(old(rows), r))
        && (forall channel: string :: Older(rows, channel, cutoff) == Baselines(old(rows), channel, cutoff))
      ensures forall r | r in rows && r.ts < cutoff :: r.channel.Some?
    {
      ghost var before := rows;
      rows := Surviving(rows, rows, cutoff);
      SurvivingWindow(before, before, cutoff);
      if Keyed(before) {
        SurvivingKeyed(before, before, cutoff);
        forall r | r in before && r.ts >= cutoff ensures Delta(rows, r) == Delta(before, r) {
          ExpiryKeepsDeltas(before, cutoff, r);
        }
        forall channel: string ensures Older(rows, channel, cutoff) == Baselines(before, channel, cutoff) {
          ExpiryKeepsOneBaseline(before, channel, cutoff);
        }
      }
      forall r | r in rows && r.ts < cutoff ensures r.channel.Some? {
        SurvivingIff(before, before, cutoff, r);
      }
    }
  }

  // ---------------------------------------------------------------- what the queries select

  lemma {:induction false} IdOf(rows: seq<Snapshot>, r: Snapshot)
    requires r in rows
    ensures r.rowid in Ids(rows)
  {
    if rows[0] != r {
      IdOf(rows[1..], r);
    }
  }

  lemma {:induction false} SameId(rows: seq<Snapshot>, a: Snapshot, b: Snapshot)
    requires Keyed(rows) && a in rows && b in rows && a.rowid == b.rowid
    ensures a == b
  {
    if rows[0] == a && rows[0] != b {
      IdOf(rows[1..], b);
    } else if rows[0] == b && rows[0] != a {
      IdOf(rows[1..], a);
    } else if rows[0] != a {
      SameId(rows[1..], a, b);
    }
  }

  /** The latest candidate is one, and no candidate is later. */
  lemma {:induction false} LatestIsLast(rows: seq<Snapshot>, channel: string, ts: real, rowid: nat, r: Snapshot)
    ensures var l := Latest(rows, channel, ts, rowid);
      && (l.Some? ==> l.value in rows && Candidate(l.value, channel, ts, rowid))
      && (r in rows && Candidate(r, channel, ts, rowid) ==>
            l.Some? && !Precedes(l.value.ts, l.value.rowid, r.ts, r.rowid))
  {
    if rows != [] {
      LatestIsLast(rows[1..], channel, ts, rowid, r);
    }
  }

  /** Two tables have the same latest candidate if the latest of each is in the other. */
  lemma LatestAgree(a: seq<Snapshot>, b: seq<Snapshot>, channel: string, ts: real, rowid: nat)
    requires Keyed(a)
    requires forall r | r in b :: r in a
    requires Latest(a, channel, ts, rowid).Some? ==> Latest(a, channel, ts, rowid).value in b
    ensures Latest(b, channel, ts, rowid) == Latest(a, channel, ts, rowid)
  {
    var x, y := Latest(a, channel, ts, rowid), Latest(b, channel, ts, rowid);
    if y.Some? {
      LatestIsLast(b, channel, ts, rowid, y.value);
      LatestIsLast(a, channel, ts, rowid, y.value);
    }
    if x.Some? {
      LatestIsLast(a, channel, ts, rowid, x.value);
      LatestIsLast(b, channel, ts, rowid, x.value);
      SameId(a, x.value, y.value);
    }
  }

  lemma {:induction false} SurvivingIff(all: seq<Snapshot>, rows: seq<Snapshot>, cutoff: real, r: Snapshot)
    ensures r in Surviving(all, rows, cutoff) <==> r in rows && Survives(all, r, cutoff)
  {
    if rows != [] {
      SurvivingIff(all, rows[1..], cutoff, r);
    }
  }

  lemma {:induction false} ActiveIff(rows: seq<Snapshot>, r: Snapshot, cutoff: real)
    requires r in rows && r.channel.Some? && r.ts >= cutoff
    ensures Active(rows, r.channel.value, cutoff)
  {
    if rows[0] != r {
      ActiveIff(rows[1..], r, cutoff);
    }
  }

  // ---------------------------------------------------------------- what expiry keeps

  /** The difference that a snapshot contributes: to the snapshot of its channel just before it. */
  function Delta(rows: seq<Snapshot>, r: Snapshot): Option<int> {
    if r.channel.None? then None
    else
      var before := Latest(rows, r.channel.value, r.ts, r.rowid);
      if before.None? then None else Some(r.count - before.value.count)
  }

  /** The snapshots in the window, in table order. */
  function Window(rows: seq<Snapshot>, cutoff: real): seq<Snapshot> {
    if rows == [] then []
    else if rows[0].ts >= cutoff then [rows[0]] + Window(rows[1..], cutoff)
    else Window(rows[1..], cutoff)
  }

  /** The snapshots of a channel before the window. */
  function Older(rows: seq<Snapshot>, channel: string, cutoff: real): seq<Snapshot> {
    if rows == [] then []
    else if rows[0].channel == Some(channel) && rows[0].ts < cutoff then [rows[0]] + Older(rows[1..], channel, cutoff)
    else Older(rows[1..], channel, cutoff)
  }

  /** The newest snapshot of a channel before the window, if the channel has one in the window too. */
  function Baselines(rows: seq<Snapshot>, channel: string, cutoff: real): seq<Snapshot> {
    var newest := Latest(rows, channel, cutoff, 0);
    if Active(rows, channel, cutoff) && newest.Some? then [newest.value] else []
  }

  lemma {:induction false} KeyedAppend(rows: seq<Snapshot>, r: Snapshot)
    requires Keyed(rows) && r.rowid !in Ids(rows)
    ensures Keyed(rows + [r]) && Ids(rows + [r]) == Ids(rows) + {r.rowid}
  {
    if rows == [] {
      assert [r][1..] == [];
    } else {
      assert (rows + [r])[0] == rows[0] && (rows + [r])[1..] == rows[1..] + [r];
      KeyedAppend(rows[1..], r);
    }
  }

  lemma {:induction false} SurvivingWindow(all: seq<Snapshot>, rows: seq<Snapshot>, cutoff: real)
    ensures Window(Surviving(all, rows, cutoff), cutoff) == Window(rows, cutoff)
  {
    if rows != [] {
      SurvivingWindow(all, rows[1..], cutoff);
      var rest := Surviving(all, rows[1..], cutoff);
      assert ([rows[0]] + rest)[1..] == rest;
    }
  }

  /** The snapshot before one in the window survives: it is in the window itself, or it is the baseline. */
  lemma PredecessorSurvives(rows: seq<Snapshot>, cutoff: real, r: Snapshot)
    requires Keyed(rows) && r in rows && r.ts >= cutoff && r.channel.Some?
    ensures var before := Latest(rows, r.channel.value, r.ts, r.rowid);
      before.Some? ==> before.value in Expire(rows, cutoff)
  {
    var c := r.channel.value;
    var before := Latest(rows, c, r.ts, r.rowid);
    if before.Some? {
      var p := before.value;
      LatestIsLast(rows, c, r.ts, r.rowid, p);
      SurvivingIff(rows, rows, cutoff, p);
      if p.ts < cutoff {
        ActiveIff(rows, r, cutoff);
        NewestIs(rows, c, cutoff, r, p);
      }
    }
  }

  lemma NewestIs(rows: seq<Snapshot>, c: string, cutoff: real, r: Snapshot, p: Snapshot)
    requires Keyed(rows) && r.ts >= cutoff && p.ts < cutoff && Latest(rows, c, r.ts, r.rowid) == Some(p)
    ensures Latest(rows, c, cutoff, 0) == Some(p)
  {
    LatestIsLast(rows, c, r.ts, r.rowid, p);
    LatestIsLast(rows, c, cutoff, 0, p);
    var q := Latest(rows, c, cutoff, 0).value;
    LatestIsLast(rows, c, r.ts, r.rowid, q);
    SameId(rows, p, q);
  }

  /** One pass leaves every snapshot of the window in place, with the difference it contributes. */
  lemma ExpiryKeepsDeltas(rows: seq<Snapshot>, cutoff: real, r: Snapshot)
    requires Keyed(rows) && r in rows && r.ts >= cutoff
    ensures Window(Expire(rows, cutoff), cutoff) == Window(rows, cutoff)
    ensures Delta(Expire(rows, cutoff), r) == Delta(rows, r)
  {
    SurvivingWindow(rows, rows, cutoff);
    if r.channel.Some? {
      PredecessorSurvives(rows, cutoff, r);
      forall s | s in Expire(rows, cutoff) ensures s in rows {
        SurvivingIff(rows, rows, cutoff, s);
      }
      LatestAgree(rows, Expire(rows, cutoff), r.channel.value, r.ts, r.rowid);
    }
  }

  lemma {:induction false} OlderSurviving(all: seq<Snapshot>, rows: seq<Snapshot>, channel: string, cutoff: real)
    requires Keyed(all) && Keyed(rows) && forall r | r in rows :: r in all
    ensures var newest := Latest(all, channel, cutoff, 0);
      Older(Surviving(all, rows, cutoff), channel, cutoff)
      == if Active(all, channel, cutoff) && newest.Some? && newest.value in rows then [newest.value] else []
  {
    if rows != [] {
      var newest := Latest(all, channel, cutoff, 0);
      OlderSurviving(all, rows[1..], channel, cutoff);
      var rest := Surviving(all, rows[1..], cutoff);
      assert ([rows[0]] + rest)[1..] == rest;
      if newest.Some? {
        LatestIsLast(all, channel, cutoff, 0, newest.value);
        if newest.value.rowid == rows[0].rowid {
          SameId(all, newest.value, rows[0]);
          NotAgain(rows[1..], newest.value);
        }
      }
    }
  }

  lemma NotAgain(rows: seq<Snapshot>, r: Snapshot)
    requires r.rowid !in Ids(rows)
    ensures r !in rows
  {
    if r in rows {
      IdOf(rows, r);
    }
  }

  /** Before the window an active channel keeps exactly its newest snapshot; an inactive one keeps none. */
  lemma ExpiryKeepsOneBaseline(rows: seq<Snapshot>, channel: string, cutoff: real)
    requires Keyed(rows)
    ensures Older(Expire(rows, cutoff), channel, cutoff) == Baselines(rows, channel, cutoff)
  {
    OlderSurviving(rows, rows, channel, cutoff);
    var newest := Latest(rows, channel, cutoff, 0);
    if newest.Some? {
      LatestIsLast(rows, channel, cutoff, 0, newest.value);
    }
  }

  // ---------------------------------------------------------------- pass after pass

  lemma {:induction false} SurvivingKeyed(all: seq<Snapshot>, rows: seq<Snapshot>, cutoff: real)
    requires Keyed(rows)
    ensures Keyed(Surviving(all, rows, cutoff)) && Ids(Surviving(all, rows, cutoff)) <= Ids(rows)
  {
    if rows != [] {
      SurvivingKeyed(all, rows[1..], cutoff);
      var rest := Surviving(all, rows[1..], cutoff);
      assert ([rows[0]] + rest)[1..] == rest;
    }
  }

  function ExpireAll(rows: seq<Snapshot>, cutoffs: seq<real>): seq<Snapshot>
    decreases |cutoffs|
  {
    if cutoffs == [] then rows else ExpireAll(Expire(rows, cutoffs[0]), cutoffs[1..])
  }

  predicate NewerThanAll(r: Snapshot, cutoffs: seq<real>)
    decreases |cutoffs|
  {
    cutoffs == [] || (r.ts >= cutoffs[0] && NewerThanAll(r, cutoffs[1..]))
  }

  /** However many passes run, a snapshot that stays in the window keeps its difference. */
  lemma {:induction false} PassesKeepDelta(rows: seq<Snapshot>, cutoffs: seq<real>, r: Snapshot)
    requires Keyed(rows) && r in rows && NewerThanAll(r, cutoffs)
    ensures r in ExpireAll(rows, cutoffs) && Delta(ExpireAll(rows, cutoffs), r) == Delta(rows, r)
    decreases |cutoffs|
  {
    if cutoffs != [] {
      ExpiryKeepsDeltas(rows, cutoffs[0], r);
      SurvivingIff(rows, rows, cutoffs[0], r);
      SurvivingKeyed(rows, rows, cutoffs[0]);
      PassesKeepDelta(Expire(rows, cutoffs[0]), cutoffs[1..], r);
    }
  }
}
