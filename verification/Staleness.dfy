/** When the row of a listed node falls behind the node's latest check: the steps of Availability that part the two, and
    that nothing else does. */
module Staleness {
  import opened UriList
  import opened NodeTable
  import opened NodeGroup
  import opened Availability

  predicate IsListed(rows: seq<Row>, id: nat) {
    exists i :: 0 <= i < |rows| && rows[i].id == id
  }

  predicate Stores(f: Flight, latest: Source, id: nat) {
    f.id == id && f.stage.Storing? && FromCheck(f.stage.check) == latest
  }

  /** The result of this check is about to be written to the row. */
  predicate IsPending(flights: seq<Flight>, latest: Source, id: nat) {
    exists k :: 0 <= k < |flights| && Stores(flights[k], latest, id)
  }

  predicate IsRowCurrent(d: Desk, i: nat)
    requires i < |d.rows| && |d.sources| == |d.rows|
  {
    var latest := LatestCheck(d.checks, d.rows[i].node.uid);
    d.sources[i] == latest || IsPending(d.flights, latest, d.rows[i].id)
  }

  /** Every row of the node goes with its latest check, or is about to. */
  ghost predicate IsCurrent(d: Desk, uid: string)
    requires |d.sources| == |d.rows|
  {
    forall i :: 0 <= i < |d.rows| && d.rows[i].node.uid == uid ==> IsRowCurrent(d, i)
  }

  // ----- The steps that part a node from its latest check -----

  /** A check is written although the row that was read is listed no more, or is not the node's only one. */
  ghost predicate MissesRow(d: Desk, t: Step, uid: string)
    requires Enabled(d, t)
  {
    t.WriteCheck? && t.ok && d.flights[t.k].uid == uid &&
    exists i :: 0 <= i < |d.rows| && d.rows[i].node.uid == uid && d.rows[i].id != d.flights[t.k].id
  }

  /** The row write of the latest check fails. */
  ghost predicate FailsToStore(d: Desk, t: Step, uid: string)
    requires Enabled(d, t)
  {
    t.WriteRow? && !t.ok && d.flights[t.k].uid == uid && IsListed(d.rows, d.flights[t.k].id) &&
    FromCheck(d.flights[t.k].stage.check) == LatestCheck(d.checks, uid)
  }

  /** A probe or a collector writes the latency of an earlier check, or of none, over the latest one. */
  ghost predicate WritesLate(d: Desk, t: Step, uid: string)
    requires Enabled(d, t)
  {
    && (t.WriteRow? || t.Collect?) && t.ok && d.flights[t.k].uid == uid && IsListed(d.rows, d.flights[t.k].id)
    && var f, latest := d.flights[t.k], LatestCheck(d.checks, uid);
       && (if t.WriteRow? then FromCheck(f.stage.check) else f.stage.source) != latest
       && !IsPending(d.flights, latest, f.id)
  }

  /** A rebuild lists the node without its latest check: it was not listed before, or the check was not stored yet, or
      the node is deleted and yet listed. */
  ghost predicate ListsWithoutLatest(d: Desk, t: Step, uid: string)
    requires |d.sources| == |d.rows| && Enabled(d, t)
  {
    && (t.Resync? || t.Remove?) && HasUid(t.nodes, uid)
    && CarriedSource(d.rows, d.sources, uid) != LatestCheck(Next(d, t).checks, uid)
  }

  ghost predicate Parts(d: Desk, t: Step, uid: string)
    requires |d.sources| == |d.rows| && Enabled(d, t)
  {
    MissesRow(d, t, uid) || FailsToStore(d, t, uid) || WritesLate(d, t, uid) || ListsWithoutLatest(d, t, uid)
  }

  // ----- A check is stored by its own probe alone -----

  predicate Mentions(f: Flight, check: nat) {
    (f.stage.Storing? && f.stage.check == check) || (f.stage.Collecting? && f.stage.source == FromCheck(check))
  }

  /** Until a check is stored, nobody else has it. */
  ghost predicate StoredOnce(d: Desk) {
    && (forall k, i :: 0 <= k < |d.flights| && d.flights[k].stage.Storing? && 0 <= i < |d.sources| ==>
          d.sources[i] != FromCheck(d.flights[k].stage.check))
    && (forall j, k :: 0 <= j < |d.flights| && 0 <= k < |d.flights| && j != k && d.flights[k].stage.Storing? ==>
          !Mentions(d.flights[j], d.flights[k].stage.check))
  }

  lemma {:induction false} WriteCheckStoresOnce(d: Desk, t: Step)
    requires Inv(d) && StoredOnce(d) && Enabled(d, t) && t.WriteCheck?
    ensures StoredOnce(Next(d, t))
  {
    assert forall j :: 0 <= j < |d.flights| ==> FlightOk(d.flights[j], d.checks) && !Mentions(d.flights[j], |d.checks|);
  }

  lemma {:induction false} WritingStoresOnce(d: Desk, t: Step)
    requires Inv(d) && StoredOnce(d) && Enabled(d, t) && (t.WriteRow? || t.Collect?)
    ensures StoredOnce(Next(d, t))
  {
    var f := d.flights[t.k];
    assert t.WriteRow? ==> Mentions(f, f.stage.check);
    assert t.Collect? && f.stage.source.FromCheck? ==> Mentions(f, f.stage.source.check);
  }

  lemma {:induction false} CarriedIsSome(rows: seq<Row>, sources: seq<Source>, uid: string)
    requires |sources| == |rows|
    ensures CarriedSource(rows, sources, uid) == NoCheck || CarriedSource(rows, sources, uid) in sources
  {
    if rows != [] {
      CarriedIsSome(rows[..|rows| - 1], sources[..|rows| - 1], uid);
    }
  }

  lemma {:induction false} RebuildStoresOnce(d: Desk, t: Step)
    requires Inv(d) && StoredOnce(d) && Enabled(d, t) && (t.Resync? || t.Remove?)
    ensures StoredOnce(Next(d, t))
  {
    forall k, i | 0 <= k < |d.flights| && d.flights[k].stage.Storing? && 0 <= i < |t.nodes|
      ensures CarriedSource(d.rows, d.sources, t.nodes[i].uid) != FromCheck(d.flights[k].stage.check)
    {
      CarriedIsSome(d.rows, d.sources, t.nodes[i].uid);
    }
  }

  lemma {:induction false} RunStoresOnce(steps: seq<Step>)
    requires IsRun(steps)
    ensures StoredOnce(After(steps))
  {
    if steps != [] {
      var before, t := steps[..|steps| - 1], steps[|steps| - 1];
      RunStoresOnce(before);
      RunKeepsInv(before);
      match t
      case Begin(_, _) =>
      case WriteCheck(_, _, _, _) => WriteCheckStoresOnce(After(before), t);
      case WriteRow(_, _) => WritingStoresOnce(After(before), t);
      case Collect(_, _, _) => WritingStoresOnce(After(before), t);
      case Resync(_) => RebuildStoresOnce(After(before), t);
      case Remove(_, _) => RebuildStoresOnce(After(before), t);
    }
  }

  // ----- Exactly these steps -----

  lemma {:induction false} LatestIsCheck(checks: seq<Verdict>, uid: string)
    ensures LatestCheck(checks, uid).FromCheck? ==> LatestCheck(checks, uid).check < |checks|
  {
    if checks != [] {
      LatestIsCheck(checks[..|checks| - 1], uid);
    }
  }

  /** A flight that stores something else, before and after, leaves what is pending. */
  lemma {:induction false} PendingStays(flights: seq<Flight>, k: nat, f: Flight, latest: Source, id: nat)
    requires k < |flights| && !Stores(flights[k], latest, id) && !Stores(f, latest, id)
    ensures IsPending(flights[k := f], latest, id) <==> IsPending(flights, latest, id)
  {
    var more := flights[k := f];
    if j :| 0 <= j < |flights| && Stores(flights[j], latest, id) {
      assert more[j] == flights[j];
    }
    if j :| 0 <= j < |more| && Stores(more[j], latest, id) {
      assert more[j] == flights[j];
    }
  }

  lemma {:induction false} BeginPartsNothing(d: Desk, t: Step, uid: string)
    requires |d.sources| == |d.rows| && IsCurrent(d, uid) && Enabled(d, t) && t.Begin?
    ensures IsCurrent(Next(d, t), uid)
  {
    var d' := Next(d, t);
    forall i: nat | i < |d.rows| && d.rows[i].node.uid == uid ensures IsRowCurrent(d', i) {
      assert IsRowCurrent(d, i);
      if k :| 0 <= k < |d.flights| && Stores(d.flights[k], LatestCheck(d.checks, uid), d.rows[i].id) {
        assert d'.flights[k] == d.flights[k];
      }
    }
  }

  /** A new check is pending for the row of its probe alone. */
  lemma {:induction false} NewCheckRow(d: Desk, t: Step, i: nat)
    requires Inv(d) && Enabled(d, t) && t.WriteCheck? && t.ok
    requires i < |d.rows| && d.rows[i].node.uid == d.flights[t.k].uid
    ensures IsRowCurrent(Next(d, t), i) <==> d.rows[i].id == d.flights[t.k].id
  {
    var d', latest := Next(d, t), FromCheck(|d.checks|);
    LatestCheckMore(d.checks, Fresh(d.flights[t.k].uid, t.result.success), d.rows[i].node.uid);
    assert Backed(d.sources[i], d.rows[i].measures.latencyMS, d.rows[i].node.uid, d.checks);
    if d.rows[i].id == d.flights[t.k].id {
      assert Stores(d'.flights[t.k], latest, d.rows[i].id);
    } else {
      forall k | 0 <= k < |d.flights| ensures !Stores(d'.flights[k], latest, d.rows[i].id) {
        assert FlightOk(d.flights[k], d.checks);
      }
    }
  }

  lemma {:induction false} OtherCheckRow(d: Desk, t: Step, i: nat)
    requires Inv(d) && Enabled(d, t) && t.WriteCheck?
    requires i < |d.rows| && (!t.ok || d.rows[i].node.uid != d.flights[t.k].uid)
    ensures IsRowCurrent(Next(d, t), i) <==> IsRowCurrent(d, i)
  {
    var uid := d.rows[i].node.uid;
    LatestIsCheck(d.checks, uid);
    LatestCheckMore(d.checks, Fresh(d.flights[t.k].uid, t.result.success), uid);
    PendingStays(d.flights, t.k, Next(d, t).flights[t.k], LatestCheck(d.checks, uid), d.rows[i].id);
  }

  lemma {:induction false} WriteCheckPartsIff(d: Desk, t: Step, uid: string)
    requires Inv(d) && IsCurrent(d, uid) && Enabled(d, t) && t.WriteCheck?
    ensures IsCurrent(Next(d, t), uid) <==> !MissesRow(d, t, uid)
  {
    forall i: nat | i < |d.rows| && d.rows[i].node.uid == uid
      ensures IsRowCurrent(Next(d, t), i) <==> !t.ok || d.flights[t.k].uid != uid || d.rows[i].id == d.flights[t.k].id
    {
      if t.ok && d.flights[t.k].uid == uid {
        NewCheckRow(d, t, i);
      } else {
        OtherCheckRow(d, t, i);
        assert IsRowCurrent(d, i);
      }
    }
  }

  /** What a write does to the rows of the other ids. */
  lemma {:induction false} OtherRowStays(d: Desk, t: Step, i: nat)
    requires Inv(d) && Enabled(d, t) && (t.WriteRow? || t.Collect?)
    requires i < |d.rows| && d.rows[i].id != d.flights[t.k].id
    ensures IsRowCurrent(Next(d, t), i) <==> IsRowCurrent(d, i)
  {
    var latest := LatestCheck(d.checks, d.rows[i].node.uid);
    PendingStays(d.flights, t.k, Next(d, t).flights[t.k], latest, d.rows[i].id);
  }

  lemma {:induction false} StoredRow(d: Desk, t: Step, i: nat)
    requires Inv(d) && StoredOnce(d) && Enabled(d, t) && t.WriteRow?
    requires i < |d.rows| && d.rows[i].id == d.flights[t.k].id && IsRowCurrent(d, i)
    ensures IsRowCurrent(Next(d, t), i) <==>
              !FailsToStore(d, t, d.rows[i].node.uid) && !WritesLate(d, t, d.rows[i].node.uid)
  {
    var f, latest := d.flights[t.k], LatestCheck(d.checks, d.rows[i].node.uid);
    var flights' := Next(d, t).flights;
    assert IsListed(d.rows, f.id);
    if FromCheck(f.stage.check) == latest {
      forall k | 0 <= k < |flights'| ensures !Stores(flights'[k], latest, f.id) {
        assert k != t.k ==> !Mentions(d.flights[k], f.stage.check);
      }
    } else {
      PendingStays(d.flights, t.k, flights'[t.k], latest, f.id);
    }
  }

  lemma {:induction false} CollectedRow(d: Desk, t: Step, i: nat)
    requires Inv(d) && Enabled(d, t) && t.Collect?
    requires i < |d.rows| && d.rows[i].id == d.flights[t.k].id && IsRowCurrent(d, i)
    ensures IsRowCurrent(Next(d, t), i) <==> !WritesLate(d, t, d.rows[i].node.uid)
  {
    var f, latest := d.flights[t.k], LatestCheck(d.checks, d.rows[i].node.uid);
    assert IsListed(d.rows, f.id);
    PendingStays(d.flights, t.k, Next(d, t).flights[t.k], latest, f.id);
  }

  lemma {:induction false} WritingPartsIff(d: Desk, t: Step, uid: string)
    requires Inv(d) && StoredOnce(d) && IsCurrent(d, uid) && Enabled(d, t) && (t.WriteRow? || t.Collect?)
    ensures IsCurrent(Next(d, t), uid) <==> !FailsToStore(d, t, uid) && !WritesLate(d, t, uid)
  {
    var d' := Next(d, t);
    forall i: nat | i < |d.rows| && d.rows[i].node.uid == uid
      ensures IsRowCurrent(d', i) <==>
                d.rows[i].id != d.flights[t.k].id || (!FailsToStore(d, t, uid) && !WritesLate(d, t, uid))
    {
      assert IsRowCurrent(d, i);
      if d.rows[i].id != d.flights[t.k].id {
        OtherRowStays(d, t, i);
      } else if t.WriteRow? {
        StoredRow(d, t, i);
      } else {
        CollectedRow(d, t, i);
      }
    }
    if d.flights[t.k].uid == uid && IsListed(d.rows, d.flights[t.k].id) {
      var i :| 0 <= i < |d.rows| && d.rows[i].id == d.flights[t.k].id;
      assert d'.rows[i].node.uid == uid;
    }
  }

  lemma {:induction false} RebuildPartsIff(d: Desk, t: Step, uid: string)
    requires Inv(d) && Enabled(d, t) && (t.Resync? || t.Remove?)
    ensures IsCurrent(Next(d, t), uid) <==> !ListsWithoutLatest(d, t, uid)
  {
    var d' := Next(d, t);
    forall i: nat | i < |t.nodes| && t.nodes[i].uid == uid
      ensures IsRowCurrent(d', i) <==> CarriedSource(d.rows, d.sources, uid) == LatestCheck(d'.checks, uid)
    {
      assert !IsPending(d.flights, LatestCheck(d'.checks, uid), d'.rows[i].id);
    }
    if HasUid(t.nodes, uid) {
      var i :| 0 <= i < |t.nodes| && t.nodes[i].uid == uid;
      assert d'.rows[i].node.uid == uid;
    }
  }

  lemma {:induction false} StepPartsIff(d: Desk, t: Step, uid: string)
    requires Inv(d) && StoredOnce(d) && IsCurrent(d, uid) && Enabled(d, t)
    ensures IsCurrent(Next(d, t), uid) <==> !Parts(d, t, uid)
  {
    match t
    case Begin(_, _) => BeginPartsNothing(d, t, uid);
    case WriteCheck(_, _, _, _) => WriteCheckPartsIff(d, t, uid);
    case WriteRow(_, _) => WritingPartsIff(d, t, uid);
    case Collect(_, _, _) => WritingPartsIff(d, t, uid);
    case Resync(_) => RebuildPartsIff(d, t, uid);
    case Remove(_, _) => RebuildPartsIff(d, t, uid);
  }

  ghost predicate IsAlwaysCurrent(steps: seq<Step>, uid: string)
    requires IsRun(steps)
  {
    IsCurrent(After(steps), uid) && (steps != [] ==> IsAlwaysCurrent(steps[..|steps| - 1], uid))
  }

  ghost predicate IsNeverParted(steps: seq<Step>, uid: string)
    requires IsRun(steps)
  {
    steps != [] ==>
      && IsNeverParted(steps[..|steps| - 1], uid)
      && !Parts(After(steps[..|steps| - 1]), steps[|steps| - 1], uid)
  }

  /** Main result: in every run, the rows of a node go with its latest check at all times exactly when no check missed
      the node's row, no row write of a latest check failed, no earlier latency was written late, and no rebuild
      listed the node without its latest check. */
  lemma {:induction false} AlwaysCurrentIff(steps: seq<Step>, uid: string)
    requires IsRun(steps)
    ensures IsAlwaysCurrent(steps, uid) <==> IsNeverParted(steps, uid)
  {
    if steps != [] {
      var before, t := steps[..|steps| - 1], steps[|steps| - 1];
      AlwaysCurrentIff(before, uid);
      if IsAlwaysCurrent(before, uid) {
        RunKeepsInv(before);
        RunStoresOnce(before);
        assert IsCurrent(After(before), uid);
        StepPartsIff(After(before), t, uid);
      }
    }
  }

  lemma {:induction false} NothingApart(rows: seq<Row>, sources: seq<Source>, checks: seq<Verdict>)
    requires |sources| == |rows|
    requires forall i :: 0 <= i < |rows| ==> sources[i] == LatestCheck(checks, rows[i].node.uid)
    ensures Ahead(rows, sources, checks) == 0 && Behind(rows, sources, checks) == 0
  {
    if rows != [] {
      NothingApart(rows[..|rows| - 1], sources[..|rows| - 1], checks);
    }
  }

  /** Main result: so when no listed node was ever parted from its latest check and no result is about to be written,
      available_total is the number of listed nodes whose latest check succeeded. */
  lemma {:induction false} TotalIsLatest(steps: seq<Step>)
    requires IsRun(steps)
    requires forall i :: 0 <= i < |After(steps).rows| ==> IsNeverParted(steps, After(steps).rows[i].node.uid)
    requires forall k :: 0 <= k < |After(steps).flights| ==> !After(steps).flights[k].stage.Storing?
    ensures AvailableTotal(After(steps).rows) == LatestUp(After(steps).rows, After(steps).checks)
  {
    var d := After(steps);
    forall i: nat | i < |d.rows| ensures d.sources[i] == LatestCheck(d.checks, d.rows[i].node.uid) {
      AlwaysCurrentIff(steps, d.rows[i].node.uid);
      assert IsRowCurrent(d, i);
    }
    NothingApart(d.rows, d.sources, d.checks);
    AvailableTotalBalances(steps);
  }
}
