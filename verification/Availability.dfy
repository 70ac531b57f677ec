/** How many nodes count as available: what probes, the collector of a batch and rebuilds leave behind in the rows and
    the checks of one target, in every interleaving of their single writes (probeAndPersistSubscriptionNode,
    RefreshSubscriptionLatency, SubscriptionNodeDeleteFromGroup, SubscriptionSummary in
    server/internal/service/target_service.go). */
module Availability {
  import opened Text
  import opened UriList
  import opened NodeTable
  import opened NodeGroup
  import P = Probe

  /** A check row; gone once the deletion of its node has removed it. */
  datatype Verdict = Verdict(uid: string, success: bool, gone: bool)

  function Fresh(uid: string, success: bool): Verdict {
    Verdict(uid, success, false)
  }

  /** Where the latency of a row was last written from: the probe of a check, or no check at all. */
  datatype Source = NoCheck | FromCheck(check: nat)

  /** A probe on its way: of a node that was read, with its check written, with its row written and, in a batch, its
      result waiting for the collector, or over. */
  datatype Stage =
    | Probing
    | Storing(check: nat, measures: Measures)
    | Collecting(source: Source, latency: Option<int>)
    | Closed

  datatype Flight = Flight(id: nat, uid: string, batch: bool, stage: Stage)

  /** The rows, the source of each, the checks and the probes of one target; ids are never used again. */
  datatype Desk = Desk(rows: seq<Row>, sources: seq<Source>, checks: seq<Verdict>, flights: seq<Flight>, nextId: nat)

  const EMPTY := Desk([], [], [], [], 1)

  /** What a probe writes into the row. */
  function MeasuresOf(m: P.Mixed, at: int): Measures {
    Measures(if m.success then Some(m.latencyMS) else None, m.scoreMS, m.tcpMS, m.tlsMS, m.domesticMS, m.overseasMS,
             m.jitterMS, m.mode, m.failStage, m.failReason, m.errorMsg, Some(at))
  }

  /** The single statements, each of which may fail, and the rebuild and the deletion, each of which is one
      transaction. */
  datatype Step =
    | Begin(row: nat, batch: bool)
    | WriteCheck(k: nat, result: P.Mixed, at: int, ok: bool)
    | WriteRow(k: nat, ok: bool)
    | Collect(k: nat, at: int, ok: bool)
    | Resync(nodes: seq<Parsed>)
    | Remove(uid: string, nodes: seq<Parsed>)   // delete a node from a group: nodes is what the kept entries parse to

  ghost predicate Enabled(d: Desk, t: Step) {
    match t
    case Begin(i, _) => i < |d.rows|
    case WriteCheck(k, m, _, _) => k < |d.flights| && d.flights[k].stage.Probing? && P.IsProbe(m)
    case WriteRow(k, _) => k < |d.flights| && d.flights[k].stage.Storing?
    case Collect(k, _, _) => k < |d.flights| && d.flights[k].stage.Collecting?
    case Resync(_) => true
    case Remove(_, _) => true
  }

  /** The end of a probe: in a batch its result is collected later. */
  function Finished(f: Flight, source: Source, latency: Option<int>): Flight {
    f.(stage := if f.batch then Collecting(source, latency) else Closed)
  }

  function Sourced(rows: seq<Row>, sources: seq<Source>, id: nat, source: Source): (r: seq<Source>)
    requires |sources| == |rows|
    ensures |r| == |rows|
  {
    seq(|rows|, i requires 0 <= i < |rows| => if rows[i].id == id then source else sources[i])
  }

  /** The collector writes the latency and its own time, and nothing else. */
  function Relatched(rows: seq<Row>, id: nat, latency: Option<int>, at: int): (r: seq<Row>)
    ensures |r| == |rows|
  {
    seq(|rows|, i requires 0 <= i < |rows| =>
      if rows[i].id == id then rows[i].(measures := rows[i].measures.(latencyMS := latency, checkedAt := Some(at)))
      else rows[i])
  }

  /** The source that goes with the measurements carried over for a UID. */
  function CarriedSource(rows: seq<Row>, sources: seq<Source>, uid: string): Source
    requires |sources| == |rows|
  {
    if rows == [] then NoCheck
    else if rows[|rows| - 1].node.uid == uid then sources[|rows| - 1]
    else CarriedSource(rows[..|rows| - 1], sources[..|rows| - 1], uid)
  }

  function Resynced(d: Desk, nodes: seq<Parsed>): Desk
    requires |d.sources| == |d.rows|
  {
    d.(rows := RowsFor(0, nodes, d.rows, d.nextId),
       sources := seq(|nodes|, k requires 0 <= k < |nodes| => CarriedSource(d.rows, d.sources, nodes[k].uid)),
       nextId := d.nextId + |nodes|)
  }

  function WithoutChecks(checks: seq<Verdict>, uid: string): (r: seq<Verdict>)
    ensures |r| == |checks|
  {
    seq(|checks|, c requires 0 <= c < |checks| => if checks[c].uid == uid then checks[c].(gone := true) else checks[c])
  }

  function Removed(d: Desk, uid: string, nodes: seq<Parsed>): Desk
    requires |d.sources| == |d.rows|
  {
    Resynced(d, nodes).(checks := WithoutChecks(d.checks, uid))
  }

  ghost function Next(d: Desk, t: Step): Desk
    requires |d.sources| == |d.rows| && Enabled(d, t)
  {
    match t
    case Begin(i, batch) => d.(flights := d.flights + [Flight(d.rows[i].id, d.rows[i].node.uid, batch, Probing)])
    case WriteCheck(k, m, at, ok) =>
      var f := d.flights[k];
      if ok then
        d.(checks := d.checks + [Fresh(f.uid, m.success)],
           flights := d.flights[k := f.(stage := Storing(|d.checks|, MeasuresOf(m, at)))])
      else d.(flights := d.flights[k := Finished(f, NoCheck, None)])
    case WriteRow(k, ok) =>
      var f := d.flights[k];
      if ok then
        d.(rows := Measured(d.rows, f.id, f.stage.measures),
           sources := Sourced(d.rows, d.sources, f.id, FromCheck(f.stage.check)),
           flights := d.flights[k := Finished(f, FromCheck(f.stage.check), f.stage.measures.latencyMS)])
      else d.(flights := d.flights[k := Finished(f, NoCheck, None)])
    case Collect(k, at, ok) =>
      var f := d.flights[k];
      if ok then
        d.(rows := Relatched(d.rows, f.id, f.stage.latency, at),
           sources := Sourced(d.rows, d.sources, f.id, f.stage.source),
           flights := d.flights[k := f.(stage := Closed)])
      else d.(flights := d.flights[k := f.(stage := Closed)])
    case Resync(nodes) => Resynced(d, nodes)
    case Remove(uid, nodes) => Removed(d, uid, nodes)
  }

  ghost predicate IsRun(steps: seq<Step>)
    decreases |steps|, 0
  {
    steps != [] ==> IsRun(steps[..|steps| - 1]) && Enabled(After(steps[..|steps| - 1]), steps[|steps| - 1])
  }

  ghost function After(steps: seq<Step>): (d: Desk)
    requires IsRun(steps)
    ensures |d.sources| == |d.rows|
    decreases |steps|, 1
  {
    if steps == [] then EMPTY else Next(After(steps[..|steps| - 1]), steps[|steps| - 1])
  }

  // ----- What is written -----

  /** A probe whose check and row are both written puts its whole result into the row that was read, and into no
      other. */
  lemma {:induction false} ProbeFillsItsRow(d: Desk, k: nat, m: P.Mixed, at: int, i: nat)
    requires |d.sources| == |d.rows| && Enabled(d, WriteCheck(k, m, at, true)) && i < |d.rows|
    ensures var d1 := Next(d, WriteCheck(k, m, at, true));
            && Enabled(d1, WriteRow(k, true))
            && d1.checks == d.checks + [Fresh(d.flights[k].uid, m.success)]
            && var r := Next(d1, WriteRow(k, true)).rows[i];
               if d.rows[i].id != d.flights[k].id then r == d.rows[i]
               else
                 && r == d.rows[i].(measures := r.measures)
                 && var x := r.measures;
                    && x.latencyMS == (if m.success then Some(m.latencyMS) else None) && x.checkedAt == Some(at)
                    && x.scoreMS == m.scoreMS && x.tcpMS == m.tcpMS && x.tlsMS == m.tlsMS && x.jitterMS == m.jitterMS
                    && x.e2eDomesticMS == m.domesticMS && x.e2eOverseasMS == m.overseasMS && x.probeMode == m.mode
                    && x.failStage == m.failStage && x.failReason == m.failReason && x.errorMsg == m.errorMsg
  {
  }

  function StepsLeft(s: Stage): nat {
    match s
    case Probing => 3
    case Storing(_, _) => 2
    case Collecting(_, _) => 1
    case Closed => 0
  }

  /** A probe is of one node from beginning to end and takes at most three more steps, none of them one of another
      probe; when a write of it fails, nothing more is written for it, and a batch has no latency to collect. */
  lemma {:induction false} ProbesGoOn(d: Desk, t: Step, k: nat)
    requires |d.sources| == |d.rows| && Enabled(d, t) && k < |d.flights|
    ensures var f, f' := d.flights[k], Next(d, t).flights[k];
            var own := (t.WriteCheck? || t.WriteRow? || t.Collect?) && t.k == k;
            && f'.id == f.id && f'.uid == f.uid && f'.batch == f.batch
            && (if own then StepsLeft(f'.stage) < StepsLeft(f.stage) else f' == f)
            && (own && !t.ok && !t.Collect? ==> f'.stage == if f.batch then Collecting(NoCheck, None) else Closed)
  {
  }

  /** The collector changes the latency and the time of the row that was read, and nothing else. */
  lemma {:induction false} CollectorChangesTwo(d: Desk, k: nat, at: int, i: nat)
    requires |d.sources| == |d.rows| && Enabled(d, Collect(k, at, true)) && i < |d.rows|
    ensures var r, f := Next(d, Collect(k, at, true)).rows[i], d.flights[k];
            r == if d.rows[i].id != f.id then d.rows[i]
                 else d.rows[i].(measures := d.rows[i].measures.(latencyMS := f.stage.latency, checkedAt := Some(at)))
  {
  }

  // ----- Counting -----

  /** last_latency_ms IS NOT NULL AND last_latency_ms >= 0. */
  predicate IsAvailable(r: Row) {
    r.measures.latencyMS.Some? && r.measures.latencyMS.value >= 0
  }

  function AvailableTotal(rows: seq<Row>): nat {
    if rows == [] then 0 else AvailableTotal(rows[..|rows| - 1]) + if IsAvailable(rows[|rows| - 1]) then 1 else 0
  }

  function LatestCheck(checks: seq<Verdict>, uid: string): Source {
    if checks == [] then NoCheck
    else if checks[|checks| - 1].uid == uid && !checks[|checks| - 1].gone then FromCheck(|checks| - 1)
    else LatestCheck(checks[..|checks| - 1], uid)
  }

  predicate Succeeded(source: Source, checks: seq<Verdict>) {
    source.FromCheck? && source.check < |checks| && checks[source.check].success
  }

  predicate LatestIsUp(r: Row, checks: seq<Verdict>) {
    Succeeded(LatestCheck(checks, r.node.uid), checks)
  }

  /** How many of the listed nodes had a successful latest probe. */
  function LatestUp(rows: seq<Row>, checks: seq<Verdict>): nat {
    if rows == [] then 0
    else LatestUp(rows[..|rows| - 1], checks) + if LatestIsUp(rows[|rows| - 1], checks) then 1 else 0
  }

  /** How many rows were last written from a success although the latest check is none. */
  function Ahead(rows: seq<Row>, sources: seq<Source>, checks: seq<Verdict>): nat
    requires |sources| == |rows|
  {
    if rows == [] then 0
    else
      var n := |rows| - 1;
      Ahead(rows[..n], sources[..n], checks) +
      if Succeeded(sources[n], checks) && !LatestIsUp(rows[n], checks) then 1 else 0
  }

  /** How many rows were last written from no success although the latest check is one. */
  function Behind(rows: seq<Row>, sources: seq<Source>, checks: seq<Verdict>): nat
    requires |sources| == |rows|
  {
    if rows == [] then 0
    else
      var n := |rows| - 1;
      Behind(rows[..n], sources[..n], checks) +
      if !Succeeded(sources[n], checks) && LatestIsUp(rows[n], checks) then 1 else 0
  }

  // ----- Every latency has its source -----

  /** The latency of a node with this UID is what its source says. */
  predicate Backed(source: Source, latency: Option<int>, uid: string, checks: seq<Verdict>) {
    match source
    case NoCheck => latency.None?
    case FromCheck(c) =>
      && c < |checks| && checks[c].uid == uid
      && (latency.Some? <==> checks[c].success) && (latency.Some? ==> latency.value >= 1)
  }

  predicate FlightOk(f: Flight, checks: seq<Verdict>) {
    match f.stage
    case Probing => true
    case Closed => true
    case Storing(c, m) => Backed(FromCheck(c), m.latencyMS, f.uid, checks)
    case Collecting(source, latency) => Backed(source, latency, f.uid, checks)
  }

  ghost predicate RowsBacked(d: Desk) {
    && |d.sources| == |d.rows|
    && (forall i, j :: 0 <= i < j < |d.rows| ==> d.rows[i].id != d.rows[j].id)
    && forall i :: 0 <= i < |d.rows| ==>
         d.rows[i].id < d.nextId && Backed(d.sources[i], d.rows[i].measures.latencyMS, d.rows[i].node.uid, d.checks)
  }

  ghost predicate FlightsBacked(d: Desk) {
    forall k :: 0 <= k < |d.flights| ==>
      && d.flights[k].id < d.nextId && FlightOk(d.flights[k], d.checks)
      && forall i :: 0 <= i < |d.rows| && d.rows[i].id == d.flights[k].id ==> d.rows[i].node.uid == d.flights[k].uid
  }

  ghost predicate Inv(d: Desk) {
    RowsBacked(d) && FlightsBacked(d)
  }

  lemma MoreChecksBack(source: Source, latency: Option<int>, uid: string, checks: seq<Verdict>, v: Verdict)
    requires Backed(source, latency, uid, checks)
    ensures Backed(source, latency, uid, checks + [v])
  {
  }

  lemma {:induction false} WriteCheckKeepsInv(d: Desk, t: Step)
    requires Inv(d) && Enabled(d, t) && t.WriteCheck?
    ensures Inv(Next(d, t))
  {
    var d' := Next(d, t);
    P.EveryProbeIsCoherent(t.result);
    if t.ok {
      var v := Fresh(d.flights[t.k].uid, t.result.success);
      forall i | 0 <= i < |d.rows|
        ensures Backed(d.sources[i], d.rows[i].measures.latencyMS, d.rows[i].node.uid, d'.checks)
      {
        MoreChecksBack(d.sources[i], d.rows[i].measures.latencyMS, d.rows[i].node.uid, d.checks, v);
      }
      forall k | 0 <= k < |d.flights| ensures FlightOk(d'.flights[k], d'.checks) {
        assert FlightOk(d.flights[k], d.checks);
      }
    }
  }

  lemma {:induction false} WritingKeepsInv(d: Desk, t: Step)
    requires Inv(d) && Enabled(d, t) && (t.WriteRow? || t.Collect?)
    ensures Inv(Next(d, t))
  {
    var d' := Next(d, t);
    var f := d.flights[t.k];
    assert FlightOk(f, d.checks);
    assert forall i :: 0 <= i < |d.rows| ==> d'.rows[i].id == d.rows[i].id && d'.rows[i].node == d.rows[i].node;
  }

  lemma {:induction false} CarriedIsBacked(rows: seq<Row>, sources: seq<Source>, uid: string, checks: seq<Verdict>)
    requires |sources| == |rows|
    requires forall i :: 0 <= i < |rows| ==> Backed(sources[i], rows[i].measures.latencyMS, rows[i].node.uid, checks)
    ensures Backed(CarriedSource(rows, sources, uid), Carried(rows, uid).latencyMS, uid, checks)
  {
    if rows != [] {
      var n := |rows| - 1;
      assert Backed(sources[n], rows[n].measures.latencyMS, rows[n].node.uid, checks);
      CarriedIsBacked(rows[..n], sources[..n], uid, checks);
    }
  }

  lemma {:induction false} ResyncKeepsInv(d: Desk, nodes: seq<Parsed>)
    requires Inv(d)
    ensures Inv(Resynced(d, nodes))
  {
    forall i | 0 <= i < |nodes|
      ensures Backed(CarriedSource(d.rows, d.sources, nodes[i].uid), Carried(d.rows, nodes[i].uid).latencyMS,
                nodes[i].uid, d.checks)
    {
      CarriedIsBacked(d.rows, d.sources, nodes[i].uid, d.checks);
    }
  }

  lemma {:induction false} RemoveKeepsInv(d: Desk, uid: string, nodes: seq<Parsed>)
    requires Inv(d)
    ensures Inv(Removed(d, uid, nodes))
  {
    ResyncKeepsInv(d, nodes);
    var d1, d' := Resynced(d, nodes), Removed(d, uid, nodes);
    forall i | 0 <= i < |d1.rows|
      ensures Backed(d1.sources[i], d1.rows[i].measures.latencyMS, d1.rows[i].node.uid, d'.checks)
    {
      assert Backed(d1.sources[i], d1.rows[i].measures.latencyMS, d1.rows[i].node.uid, d1.checks);
    }
    forall k | 0 <= k < |d.flights| ensures FlightOk(d'.flights[k], d'.checks) {
      assert FlightOk(d1.flights[k], d1.checks);
    }
  }

  lemma {:induction false} RunKeepsInv(steps: seq<Step>)
    requires IsRun(steps)
    ensures Inv(After(steps))
  {
    if steps != [] {
      var before, t := steps[..|steps| - 1], steps[|steps| - 1];
      RunKeepsInv(before);
      match t
      case Begin(_, _) =>
      case WriteCheck(_, _, _, _) => WriteCheckKeepsInv(After(before), t);
      case WriteRow(_, _) => WritingKeepsInv(After(before), t);
      case Collect(_, _, _) => WritingKeepsInv(After(before), t);
      case Resync(nodes) => ResyncKeepsInv(After(before), nodes);
      case Remove(uid, nodes) => RemoveKeepsInv(After(before), uid, nodes);
    }
  }

  /** Main result: in every interleaving of probes, batches, rebuilds and failed writes, a listed node counts as
      available exactly when the last write of its latency came from a successful check of the same UID. */
  lemma {:induction false} AvailableMeansSourceUp(steps: seq<Step>, i: nat)
    requires IsRun(steps) && i < |After(steps).rows|
    ensures var d := After(steps);
            && (IsAvailable(d.rows[i]) <==> Succeeded(d.sources[i], d.checks))
            && (d.sources[i].FromCheck? ==>
                  d.sources[i].check < |d.checks| && d.checks[d.sources[i].check].uid == d.rows[i].node.uid)
  {
    RunKeepsInv(steps);
  }

  lemma {:induction false} CountsBalance(rows: seq<Row>, sources: seq<Source>, checks: seq<Verdict>)
    requires |sources| == |rows|
    requires forall i :: 0 <= i < |rows| ==> (IsAvailable(rows[i]) <==> Succeeded(sources[i], checks))
    ensures AvailableTotal(rows) + Behind(rows, sources, checks) ==
              LatestUp(rows, checks) + Ahead(rows, sources, checks)
  {
    if rows != [] {
      var n := |rows| - 1;
      CountsBalance(rows[..n], sources[..n], checks);
    }
  }

  /** Main result: in every run, available_total differs from the number of listed nodes whose latest check succeeded
      by the rows last written from an earlier success, less those that a later success did not reach; so the two
      are equal exactly when these are equally many. */
  lemma {:induction false} AvailableTotalBalances(steps: seq<Step>)
    requires IsRun(steps)
    ensures var d := After(steps);
            var ahead, behind := Ahead(d.rows, d.sources, d.checks), Behind(d.rows, d.sources, d.checks);
            && AvailableTotal(d.rows) == LatestUp(d.rows, d.checks) + ahead - behind
            && (AvailableTotal(d.rows) == LatestUp(d.rows, d.checks) <==> ahead == behind)
  {
    var d := After(steps);
    forall i: nat | i < |d.rows| ensures IsAvailable(d.rows[i]) <==> Succeeded(d.sources[i], d.checks) {
      AvailableMeansSourceUp(steps, i);
    }
    CountsBalance(d.rows, d.sources, d.checks);
  }

  // ----- One at a time -----

  ghost predicate Distinct(nodes: seq<Parsed>) {
    forall i, j :: 0 <= i < j < |nodes| ==> nodes[i].uid != nodes[j].uid
  }

  ghost predicate AllClosed(d: Desk) {
    forall k :: 0 <= k < |d.flights| ==> d.flights[k].stage.Closed?
  }

  /** No two probes of a node overlap, no rebuild overlaps a probe, no write fails, no list has duplicates and no
      deleted node stays listed. */
  ghost predicate Calm(d: Desk, t: Step) {
    match t
    case Begin(i, _) =>
      i < |d.rows| &&
      forall k :: 0 <= k < |d.flights| && d.flights[k].uid == d.rows[i].node.uid ==> d.flights[k].stage.Closed?
    case WriteCheck(_, _, _, ok) => ok
    case WriteRow(_, ok) => ok
    case Collect(_, _, ok) => ok
    case Resync(nodes) => Distinct(nodes) && AllClosed(d)
    case Remove(uid, nodes) => Distinct(nodes) && AllClosed(d) && forall i :: 0 <= i < |nodes| ==> nodes[i].uid != uid
  }

  ghost predicate IsCalm(steps: seq<Step>)
    requires IsRun(steps)
  {
    steps != [] ==> IsCalm(steps[..|steps| - 1]) && Calm(After(steps[..|steps| - 1]), steps[|steps| - 1])
  }

  ghost predicate Apart(d: Desk) {
    && (forall i, j :: 0 <= i < j < |d.rows| ==>
          d.rows[i].id != d.rows[j].id && d.rows[i].node.uid != d.rows[j].node.uid)
    && (forall j, k :: 0 <= j < k < |d.flights| && !d.flights[j].stage.Closed? && !d.flights[k].stage.Closed? ==>
          d.flights[j].uid != d.flights[k].uid)
    && (forall k :: 0 <= k < |d.flights| && !d.flights[k].stage.Closed? ==> HasRow(d.rows, d.flights[k]))
  }

  ghost predicate HasRow(rows: seq<Row>, f: Flight) {
    exists i :: 0 <= i < |rows| && rows[i].id == f.id && rows[i].node.uid == f.uid
  }

  /** A probe that has written something wrote the latest check of its node. */
  predicate IsLatest(f: Flight, checks: seq<Verdict>) {
    match f.stage
    case Probing => true
    case Closed => true
    case Storing(c, _) => LatestCheck(checks, f.uid) == FromCheck(c)
    case Collecting(source, _) => LatestCheck(checks, f.uid) == source
  }

  ghost predicate IsStoring(d: Desk, uid: string) {
    exists k :: 0 <= k < |d.flights| && d.flights[k].uid == uid && d.flights[k].stage.Storing?
  }

  predicate IsUnprobed(r: Row, source: Source) {
    source == NoCheck && r.measures.checkedAt.None?
  }

  ghost predicate RowCalm(d: Desk, i: nat)
    requires i < |d.rows| && |d.sources| == |d.rows|
  {
    || IsUnprobed(d.rows[i], d.sources[i])
    || d.sources[i] == LatestCheck(d.checks, d.rows[i].node.uid)
    || IsStoring(d, d.rows[i].node.uid)
  }

  ghost predicate AllCalm(d: Desk) {
    && Inv(d) && Apart(d)
    && (forall k :: 0 <= k < |d.flights| ==> d.flights[k].stage.Closed? || IsLatest(d.flights[k], d.checks))
    && (forall i :: 0 <= i < |d.rows| ==> RowCalm(d, i))
  }

  lemma LatestCheckMore(checks: seq<Verdict>, v: Verdict, uid: string)
    ensures LatestCheck(checks + [v], uid) ==
              if v.uid == uid && !v.gone then FromCheck(|checks|) else LatestCheck(checks, uid)
  {
    assert (checks + [v])[..|checks|] == checks;
  }

  lemma {:induction false} BeginKeepsApart(d: Desk, t: Step)
    requires Inv(d) && Apart(d) && Enabled(d, t) && Calm(d, t) && t.Begin?
    ensures Inv(Next(d, t)) && Apart(Next(d, t))
  {
    var d' := Next(d, t);
    assert HasRow(d'.rows, d'.flights[|d.flights|]);
  }

  lemma {:induction false} WriteCheckKeepsApart(d: Desk, t: Step)
    requires Apart(d) && |d.sources| == |d.rows| && Enabled(d, t) && Calm(d, t) && t.WriteCheck?
    ensures Apart(Next(d, t))
  {
    var d' := Next(d, t);
    forall k | 0 <= k < |d.flights| && !d'.flights[k].stage.Closed? ensures HasRow(d'.rows, d'.flights[k]) {
      assert HasRow(d.rows, d.flights[k]);
      var i :| 0 <= i < |d.rows| && d.rows[i].id == d.flights[k].id && d.rows[i].node.uid == d.flights[k].uid;
    }
  }

  /** A probe that is storing goes on doing so while its flight stays. */
  lemma {:induction false} StoringStays(d: Desk, d': Desk, uid: string, except: nat)
    requires |d.flights| <= |d'.flights| && IsStoring(d, uid)
    requires forall k :: 0 <= k < |d.flights| && k != except ==> d'.flights[k] == d.flights[k]
    requires except < |d.flights| && d.flights[except].stage.Storing? ==> d.flights[except].uid != uid
    ensures IsStoring(d', uid)
  {
    var k :| 0 <= k < |d.flights| && d.flights[k].uid == uid && d.flights[k].stage.Storing?;
    assert d'.flights[k] == d.flights[k];
  }

  lemma {:induction false} BeginIsCalm(d: Desk, t: Step)
    requires AllCalm(d) && Enabled(d, t) && Calm(d, t) && t.Begin?
    ensures AllCalm(Next(d, t))
  {
    var d' := Next(d, t);
    BeginKeepsApart(d, t);
    forall i: nat | i < |d.rows| ensures RowCalm(d', i) {
      assert RowCalm(d, i);
      if IsStoring(d, d.rows[i].node.uid) {
        StoringStays(d, d', d.rows[i].node.uid, |d.flights|);
      }
    }
  }

  lemma {:induction false} WriteCheckIsCalm(d: Desk, t: Step)
    requires AllCalm(d) && Enabled(d, t) && Calm(d, t) && t.WriteCheck?
    ensures AllCalm(Next(d, t))
  {
    var d' := Next(d, t);
    var f := d.flights[t.k];
    var v := Fresh(f.uid, t.result.success);
    WriteCheckKeepsInv(d, t);
    WriteCheckKeepsApart(d, t);
    forall k | 0 <= k < |d.flights| ensures d'.flights[k].stage.Closed? || IsLatest(d'.flights[k], d'.checks) {
      LatestCheckMore(d.checks, v, d.flights[k].uid);
    }
    forall i: nat | i < |d.rows| ensures RowCalm(d', i) {
      WriteCheckKeepsRow(d, t, i);
    }
  }

  lemma {:induction false} WriteCheckKeepsRow(d: Desk, t: Step, i: nat)
    requires |d.sources| == |d.rows| && i < |d.rows| && RowCalm(d, i) && Enabled(d, t) && Calm(d, t) && t.WriteCheck?
    ensures RowCalm(Next(d, t), i)
  {
    var d' := Next(d, t);
    var f := d.flights[t.k];
    LatestCheckMore(d.checks, Fresh(f.uid, t.result.success), d.rows[i].node.uid);
    if d.rows[i].node.uid == f.uid {
      assert d'.flights[t.k].stage.Storing?;
    } else if IsStoring(d, d.rows[i].node.uid) {
      StoringStays(d, d', d.rows[i].node.uid, t.k);
    }
  }

  /** The row of an open probe is the one with its UID. */
  lemma {:induction false} RowOfFlight(d: Desk, k: nat, i: nat)
    requires Apart(d) && k < |d.flights| && !d.flights[k].stage.Closed? && i < |d.rows|
    ensures d.rows[i].id == d.flights[k].id <==> d.rows[i].node.uid == d.flights[k].uid
  {
    var j :| 0 <= j < |d.rows| && d.rows[j].id == d.flights[k].id && d.rows[j].node.uid == d.flights[k].uid;
  }

  lemma {:induction false} WritingIsCalm(d: Desk, t: Step)
    requires AllCalm(d) && Enabled(d, t) && Calm(d, t) && (t.WriteRow? || t.Collect?)
    ensures AllCalm(Next(d, t))
  {
    var d' := Next(d, t);
    WritingKeepsInv(d, t);
    WritingKeepsApart(d, t);
    assert IsLatest(d.flights[t.k], d.checks);
    forall i: nat | i < |d.rows| ensures RowCalm(d', i) {
      assert RowCalm(d, i);
      RowOfFlight(d, t.k, i);
      if d.rows[i].id != d.flights[t.k].id && IsStoring(d, d.rows[i].node.uid) {
        var k :| 0 <= k < |d.flights| && d.flights[k].uid == d.rows[i].node.uid && d.flights[k].stage.Storing?;
        assert k != t.k && d'.flights[k] == d.flights[k];
      }
    }
  }

  lemma {:induction false} WritingKeepsApart(d: Desk, t: Step)
    requires |d.sources| == |d.rows| && Apart(d) && Enabled(d, t) && Calm(d, t) && (t.WriteRow? || t.Collect?)
    ensures Apart(Next(d, t))
  {
    var d' := Next(d, t);
    assert forall i :: 0 <= i < |d.rows| ==> d'.rows[i].id == d.rows[i].id && d'.rows[i].node == d.rows[i].node;
    forall k | 0 <= k < |d.flights| && !d'.flights[k].stage.Closed? ensures HasRow(d'.rows, d'.flights[k]) {
      assert HasRow(d.rows, d.flights[k]);
      var i :| 0 <= i < |d.rows| && d.rows[i].id == d.flights[k].id && d.rows[i].node.uid == d.flights[k].uid;
      assert d'.rows[i].id == d'.flights[k].id;
    }
  }

  /** What is carried over for a UID comes from one row, with its source, or from none. */
  lemma {:induction false} CarriedFromOneRow(rows: seq<Row>, sources: seq<Source>, uid: string)
    requires |sources| == |rows|
    ensures || (Carried(rows, uid) == UNMEASURED && CarriedSource(rows, sources, uid) == NoCheck)
            || exists i :: 0 <= i < |rows| && rows[i].node.uid == uid && Carried(rows, uid) == rows[i].measures &&
                           CarriedSource(rows, sources, uid) == sources[i]
  {
    if rows != [] {
      var n := |rows| - 1;
      if rows[n].node.uid != uid {
        CarriedFromOneRow(rows[..n], sources[..n], uid);
        assert Carried(rows, uid) == Carried(rows[..n], uid);
        if !(Carried(rows[..n], uid) == UNMEASURED && CarriedSource(rows[..n], sources[..n], uid) == NoCheck) {
          var i :| 0 <= i < n && rows[..n][i].node.uid == uid && Carried(rows[..n], uid) == rows[..n][i].measures &&
                   CarriedSource(rows[..n], sources[..n], uid) == sources[..n][i];
          assert rows[i] == rows[..n][i];
        }
      }
    }
  }

  lemma {:induction false} ResyncIsCalm(d: Desk, nodes: seq<Parsed>)
    requires AllCalm(d) && Distinct(nodes) && AllClosed(d)
    ensures AllCalm(Resynced(d, nodes))
  {
    var d' := Resynced(d, nodes);
    ResyncKeepsInv(d, nodes);
    forall i | 0 <= i < |nodes| ensures RowCalm(d', i) {
      CarriedFromOneRow(d.rows, d.sources, nodes[i].uid);
      if j :| 0 <= j < |d.rows| && d.rows[j].node.uid == nodes[i].uid &&
              Carried(d.rows, nodes[i].uid) == d.rows[j].measures &&
              CarriedSource(d.rows, d.sources, nodes[i].uid) == d.sources[j] {
        assert RowCalm(d, j);
      }
    }
  }

  lemma {:induction false} OtherChecksStay(checks: seq<Verdict>, gone: string, uid: string)
    requires uid != gone
    ensures LatestCheck(WithoutChecks(checks, gone), uid) == LatestCheck(checks, uid)
  {
    if checks != [] {
      assert WithoutChecks(checks, gone)[..|checks| - 1] == WithoutChecks(checks[..|checks| - 1], gone);
      OtherChecksStay(checks[..|checks| - 1], gone, uid);
    }
  }

  lemma {:induction false} NoCheckStays(checks: seq<Verdict>, uid: string)
    ensures LatestCheck(WithoutChecks(checks, uid), uid) == NoCheck
  {
    if checks != [] {
      assert WithoutChecks(checks, uid)[..|checks| - 1] == WithoutChecks(checks[..|checks| - 1], uid);
      NoCheckStays(checks[..|checks| - 1], uid);
    }
  }

  /** Deleting a node takes all its checks away and none of another node; a rebuild alone takes none. */
  lemma {:induction false} DeletionForgets(d: Desk, uid: string, nodes: seq<Parsed>, other: string)
    requires |d.sources| == |d.rows| && other != uid
    ensures LatestCheck(Next(d, Remove(uid, nodes)).checks, uid) == NoCheck
    ensures LatestCheck(Next(d, Remove(uid, nodes)).checks, other) == LatestCheck(d.checks, other)
    ensures Next(d, Resync(nodes)).checks == d.checks
  {
    NoCheckStays(d.checks, uid);
    OtherChecksStay(d.checks, uid, other);
  }

  lemma {:induction false} RemoveIsCalm(d: Desk, uid: string, nodes: seq<Parsed>)
    requires AllCalm(d) && Calm(d, Remove(uid, nodes))
    ensures AllCalm(Removed(d, uid, nodes))
  {
    var d1, d' := Resynced(d, nodes), Removed(d, uid, nodes);
    ResyncIsCalm(d, nodes);
    RemoveKeepsInv(d, uid, nodes);
    forall i: nat | i < |nodes| ensures RowCalm(d', i) {
      assert RowCalm(d1, i);
      OtherChecksStay(d.checks, uid, nodes[i].uid);
    }
  }

  lemma {:induction false} CalmRunIsCalm(steps: seq<Step>)
    requires IsRun(steps) && IsCalm(steps)
    ensures AllCalm(After(steps))
  {
    if steps != [] {
      var before, t := steps[..|steps| - 1], steps[|steps| - 1];
      CalmRunIsCalm(before);
      match t
      case Begin(_, _) => BeginIsCalm(After(before), t);
      case WriteCheck(_, _, _, _) => WriteCheckIsCalm(After(before), t);
      case WriteRow(_, _) => WritingIsCalm(After(before), t);
      case Collect(_, _, _) => WritingIsCalm(After(before), t);
      case Resync(nodes) => ResyncIsCalm(After(before), nodes);
      case Remove(uid, nodes) => RemoveIsCalm(After(before), uid, nodes);
    }
  }

  /** A row that was not probed since it was listed, of a node whose latest check, from an earlier listing,
      succeeded. */
  predicate IsForgotten(r: Row, checks: seq<Verdict>) {
    r.measures.checkedAt.None? && LatestIsUp(r, checks)
  }

  lemma {:induction false} CalmCounts(rows: seq<Row>, sources: seq<Source>, checks: seq<Verdict>)
    requires |sources| == |rows|
    requires forall i :: 0 <= i < |rows| ==>
               && Backed(sources[i], rows[i].measures.latencyMS, rows[i].node.uid, checks)
               && (IsUnprobed(rows[i], sources[i]) || sources[i] == LatestCheck(checks, rows[i].node.uid))
               && (rows[i].measures.checkedAt.None? ==> sources[i] == NoCheck)
    ensures AvailableTotal(rows) <= LatestUp(rows, checks)
    ensures AvailableTotal(rows) == LatestUp(rows, checks) <==>
              forall i :: 0 <= i < |rows| ==> !IsForgotten(rows[i], checks)
  {
    if rows != [] {
      var n := |rows| - 1;
      CalmCounts(rows[..n], sources[..n], checks);
      assert forall i :: 0 <= i < n ==> rows[..n][i] == rows[i];
    }
  }

  /** A row that was never probed has no source: every write sets a time. */
  ghost predicate Timed(d: Desk) {
    && |d.sources| == |d.rows|
    && (forall i :: 0 <= i < |d.rows| && d.rows[i].measures.checkedAt.None? ==> d.sources[i] == NoCheck)
    && (forall k :: 0 <= k < |d.flights| && d.flights[k].stage.Storing? ==> d.flights[k].stage.measures.checkedAt.Some?)
  }

  lemma {:induction false} ResyncIsTimed(d: Desk, nodes: seq<Parsed>)
    requires Timed(d)
    ensures Timed(Resynced(d, nodes))
  {
    forall i | 0 <= i < |nodes| && Carried(d.rows, nodes[i].uid).checkedAt.None?
      ensures CarriedSource(d.rows, d.sources, nodes[i].uid) == NoCheck
    {
      CarriedFromOneRow(d.rows, d.sources, nodes[i].uid);
    }
  }

  lemma {:induction false} StepIsTimed(d: Desk, t: Step)
    requires Timed(d) && Enabled(d, t)
    ensures Timed(Next(d, t))
  {
    if t.Resync? || t.Remove? {
      ResyncIsTimed(d, t.nodes);
    }
  }

  lemma {:induction false} RunIsTimed(steps: seq<Step>)
    requires IsRun(steps)
    ensures Timed(After(steps))
  {
    if steps != [] {
      RunIsTimed(steps[..|steps| - 1]);
      StepIsTimed(After(steps[..|steps| - 1]), steps[|steps| - 1]);
    }
  }

  /** Main result: when no two operations on a node overlap and no write fails, then between probes available_total is
      the number of listed nodes whose latest check succeeded exactly when no listed node is forgotten. */
  lemma {:induction false} CalmTotalIff(steps: seq<Step>)
    requires IsRun(steps) && IsCalm(steps)
    requires forall k :: 0 <= k < |After(steps).flights| ==> !After(steps).flights[k].stage.Storing?
    ensures var d := After(steps);
            && AvailableTotal(d.rows) <= LatestUp(d.rows, d.checks)
            && (AvailableTotal(d.rows) == LatestUp(d.rows, d.checks) <==>
                forall i :: 0 <= i < |d.rows| ==> !IsForgotten(d.rows[i], d.checks))
  {
    CalmRunIsCalm(steps);
    RunIsTimed(steps);
    var d := After(steps);
    forall i: nat | i < |d.rows|
      ensures IsUnprobed(d.rows[i], d.sources[i]) || d.sources[i] == LatestCheck(d.checks, d.rows[i].node.uid)
    {
      assert RowCalm(d, i);
    }
    CalmCounts(d.rows, d.sources, d.checks);
  }

  // ----- Where the counts part -----

  lemma {:induction false} RunMore(steps: seq<Step>, t: Step) returns (more: seq<Step>)
    requires IsRun(steps) && Enabled(After(steps), t)
    ensures more == steps + [t] && IsRun(more) && After(more) == Next(After(steps), t)
  {
    more := steps + [t];
    assert more[..|more| - 1] == steps;
  }

  lemma {:induction false} CalmMore(steps: seq<Step>, t: Step)
    requires IsRun(steps) && IsCalm(steps) && Enabled(After(steps), t) && Calm(After(steps), t)
    ensures IsRun(steps + [t]) && IsCalm(steps + [t])
  {
    var more := RunMore(steps, t);
    assert more[..|more| - 1] == steps;
  }

  /** A single listed node that was never probed. */
  function Listed(n: Parsed, id: nat): Row {
    Row(id, 0, n, UNMEASURED)
  }

  /** Rebuilding from a list of one node that has no measurement to carry. */
  lemma {:induction false} ListOne(d: Desk, n: Parsed)
    requires |d.sources| == |d.rows|
    requires Carried(d.rows, n.uid) == UNMEASURED && CarriedSource(d.rows, d.sources, n.uid) == NoCheck
    ensures Resynced(d, [n]) == d.(rows := [Listed(n, d.nextId)], sources := [NoCheck], nextId := d.nextId + 1)
  {
    assert Resynced(d, [n]).rows == [Listed(n, d.nextId)];
    assert Resynced(d, [n]).sources == [NoCheck];
  }

  lemma {:induction false} ListNone(d: Desk)
    requires |d.sources| == |d.rows|
    ensures Resynced(d, []) == d.(rows := [], sources := [])
  {
    assert Resynced(d, []).rows == [];
    assert Resynced(d, []).sources == [];
  }

  lemma {:induction false} LatestOfOne(v: Verdict)
    requires !v.gone
    ensures LatestCheck([v], v.uid) == FromCheck(0)
  {
    LatestCheckMore([], v, v.uid);
    assert [] + [v] == [v];
  }

  lemma {:induction false} OneListed(n: Parsed) returns (steps: seq<Step>)
    ensures IsRun(steps) && IsCalm(steps)
    ensures After(steps) == Desk([Listed(n, 1)], [NoCheck], [], [], 2)
  {
    CalmMore([], Resync([n]));
    steps := RunMore([], Resync([n]));
    ListOne(EMPTY, n);
    assert steps == [] + [Resync([n])];
  }

  /** A probe of the only row, up to its row being written. */
  lemma {:induction false} ProbeOne(
    steps: seq<Step>, row: Row, source: Source, k: nat, batch: bool, m: P.Mixed) returns (more: seq<Step>)
    requires IsRun(steps) && P.IsProbe(m)
    requires After(steps).rows == [row] && After(steps).sources == [source] && |After(steps).flights| == k
    ensures IsRun(more) && more == steps + [Begin(0, batch)] + [WriteCheck(k, m, 0, true)] + [WriteRow(k, true)]
    ensures var d, c := After(steps), |After(steps).checks|;
            After(more) == d.(
              rows := [row.(measures := MeasuresOf(m, 0))], sources := [FromCheck(c)],
              checks := d.checks + [Fresh(row.node.uid, m.success)],
              flights := d.flights +
                [Finished(Flight(row.id, row.node.uid, batch, Probing), FromCheck(c), MeasuresOf(m, 0).latencyMS)])
  {
    var d, c := After(steps), |After(steps).checks|;
    more := RunMore(steps, Begin(0, batch));
    more := RunMore(more, WriteCheck(k, m, 0, true));
    var f := Flight(row.id, row.node.uid, batch, Storing(c, MeasuresOf(m, 0)));
    assert After(more).flights == d.flights + [f];
    more := RunMore(more, WriteRow(k, true));
    assert After(more).rows == [row.(measures := MeasuresOf(m, 0))];
    assert After(more).sources == [FromCheck(c)];
    assert After(more).flights == d.flights + [Finished(f, FromCheck(c), MeasuresOf(m, 0).latencyMS)];
    assert Finished(f, FromCheck(c), MeasuresOf(m, 0).latencyMS) ==
           Finished(Flight(row.id, row.node.uid, batch, Probing), FromCheck(c), MeasuresOf(m, 0).latencyMS);
  }

  /** Nothing overlaps a probe of the only row when no other is on its way. */
  lemma {:induction false} ProbingOneIsCalm(steps: seq<Step>, k: nat, batch: bool, m: P.Mixed)
    requires IsRun(steps) && IsCalm(steps) && P.IsProbe(m)
    requires |After(steps).rows| == 1 && |After(steps).flights| == k && AllClosed(After(steps))
    ensures var more := steps + [Begin(0, batch)] + [WriteCheck(k, m, 0, true)] + [WriteRow(k, true)];
            IsRun(more) && IsCalm(more)
  {
    CalmMore(steps, Begin(0, batch));
    var begun := RunMore(steps, Begin(0, batch));
    CalmMore(begun, WriteCheck(k, m, 0, true));
    var checked := RunMore(begun, WriteCheck(k, m, 0, true));
    CalmMore(checked, WriteRow(k, true));
  }

  lemma OneRowCounts(row: Row, checks: seq<Verdict>)
    ensures AvailableTotal([row]) == if IsAvailable(row) then 1 else 0
    ensures LatestUp([row], checks) == if LatestIsUp(row, checks) then 1 else 0
  {
    assert [row][..0] == [];
  }

  /** The batch has probed the node successfully, then the node was probed by hand and failed. */
  lemma {:induction false} OverlapIsReachable(n: Parsed, up: P.Mixed, down: P.Mixed) returns (steps: seq<Step>)
    requires P.IsProbe(up) && up.success && P.IsProbe(down) && !down.success
    ensures IsRun(steps)
    ensures After(steps) == Desk(
              [Listed(n, 1).(measures := MeasuresOf(down, 0))], [FromCheck(1)],
              [Fresh(n.uid, true), Fresh(n.uid, false)],
              [Flight(1, n.uid, true, Collecting(FromCheck(0), Some(up.latencyMS))), Flight(1, n.uid, false, Closed)],
              2)
  {
    steps := OneListed(n);
    var row := Listed(n, 1);
    steps := ProbeOne(steps, row, NoCheck, 0, true, up);
    steps := ProbeOne(steps, row.(measures := MeasuresOf(up, 0)), FromCheck(0), 1, false, down);
  }

  lemma {:induction false} CollectOne(d: Desk, row: Row, latency: Option<int>)
    requires d.rows == [row] && d.sources == [FromCheck(1)]
    requires |d.flights| == 2 && d.flights[0] == Flight(row.id, row.node.uid, true, Collecting(FromCheck(0), latency))
    ensures var d' := Next(d, Collect(0, 1, true));
            && d'.rows == [row.(measures := row.measures.(latencyMS := latency, checkedAt := Some(1)))]
            && d'.checks == d.checks && d'.flights == d.flights[0 := d.flights[0].(stage := Closed)]
  {
  }

  lemma LatestOfTwo(a: Verdict, b: Verdict)
    requires a.uid == b.uid && !a.gone && !b.gone
    ensures LatestCheck([a, b], a.uid) == FromCheck(1)
  {
    LatestCheckMore([a], b, a.uid);
    assert [a] + [b] == [a, b];
  }

  /** Overlapping probes: a batch has probed a node successfully and goes on feeding, the node is probed by hand and
      fails, then the collector writes the old latency back: the node counts as available although its latest
      check failed, and it is not forgotten. */
  lemma {:induction false} CollectorRevivesANode(n: Parsed, up: P.Mixed, down: P.Mixed) returns (steps: seq<Step>)
    requires P.IsProbe(up) && up.success && P.IsProbe(down) && !down.success
    ensures IsRun(steps)
    ensures var d := After(steps);
            && AvailableTotal(d.rows) == 1 && LatestUp(d.rows, d.checks) == 0
            && |d.rows| == 1 && !IsForgotten(d.rows[0], d.checks) && AllClosed(d)
  {
    P.EveryProbeIsCoherent(up);
    steps := OverlapIsReachable(n, up, down);
    CollectOne(After(steps), Listed(n, 1).(measures := MeasuresOf(down, 0)), Some(up.latencyMS));
    steps := RunMore(steps, Collect(0, 1, true));
    LatestOfTwo(Fresh(n.uid, true), Fresh(n.uid, false));
    OneRowCounts(After(steps).rows[0], After(steps).checks);
  }

  /** A node is listed and probed, nothing else happens. */
  lemma {:induction false} ProbedOnce(n: Parsed, up: P.Mixed) returns (steps: seq<Step>)
    requires P.IsProbe(up)
    ensures IsRun(steps) && IsCalm(steps)
    ensures After(steps) == Desk(
              [Listed(n, 1).(measures := MeasuresOf(up, 0))], [FromCheck(0)],
              [Fresh(n.uid, up.success)], [Flight(1, n.uid, false, Closed)], 2)
  {
    var listed := OneListed(n);
    ProbingOneIsCalm(listed, 0, false, up);
    steps := ProbeOne(listed, Listed(n, 1), NoCheck, 0, false, up);
  }

  /** A node that leaves the list and comes back is listed as unmeasured, although its latest check succeeded: even
      without overlaps and failed writes the two numbers differ. */
  lemma {:induction false} ReaddedNodeIsForgotten(n: Parsed, up: P.Mixed) returns (steps: seq<Step>)
    requires P.IsProbe(up) && up.success
    ensures IsRun(steps) && IsCalm(steps)
    ensures var d := After(steps);
            && AllClosed(d)
            && AvailableTotal(d.rows) == 0 && LatestUp(d.rows, d.checks) == 1
            && |d.rows| == 1 && IsForgotten(d.rows[0], d.checks)
  {
    steps := ProbedOnce(n, up);
    var d1 := After(steps);
    ListNone(d1);
    CalmMore(steps, Resync([]));
    steps := RunMore(steps, Resync([]));
    var d2 := d1.(rows := [], sources := []);
    ListOne(d2, n);
    CalmMore(steps, Resync([n]));
    steps := RunMore(steps, Resync([n]));
    LatestOfOne(Fresh(n.uid, true));
    OneRowCounts(Listed(n, 2), [Fresh(n.uid, true)]);
  }

  /** It does happen: some probe succeeds. */
  lemma {:induction false} CalmTotalsDiffer(n: Parsed) returns (steps: seq<Step>)
    ensures IsRun(steps) && IsCalm(steps) && AllClosed(After(steps))
    ensures AvailableTotal(After(steps).rows) < LatestUp(After(steps).rows, After(steps).checks)
  {
    var up := P.SomeSuccess(n.uid);
    steps := ReaddedNodeIsForgotten(n, up);
  }

  /** A rebuild between reading a node and storing its probe loses the measurement: the row id is gone. */
  lemma {:induction false} ProbeOfOldRowIsLost(n: Parsed, up: P.Mixed) returns (steps: seq<Step>)
    requires P.IsProbe(up) && up.success
    ensures IsRun(steps)
    ensures var d := After(steps);
            AvailableTotal(d.rows) == 0 && LatestUp(d.rows, d.checks) == 1 && AllClosed(d)
  {
    steps := OneListed(n);
    steps := RunMore(steps, Begin(0, false));
    var d1 := After(steps);
    steps := RunMore(steps, Resync([n]));
    assert d1.rows[..0] == [] && d1.rows == [Listed(n, 1)];
    ListOne(d1, n);
    steps := RunMore(steps, WriteCheck(0, up, 0, true));
    steps := RunMore(steps, WriteRow(0, true));
    var d := After(steps);
    assert d.rows == [Listed(n, 2)] && d.checks == [Fresh(n.uid, true)];
    LatestOfOne(Fresh(n.uid, true));
    OneRowCounts(d.rows[0], d.checks);
  }
}
