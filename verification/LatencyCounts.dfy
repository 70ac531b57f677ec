/** What the figures of a finished latency job count, read off the probes of the run: its successes, its check rows, its
    workers and its progress events. */
module LatencyCounts {
  import opened Text
  import opened JobChannels
  import opened LatencyJob
  import P = Probe

  /** What probing left behind for a node: the error its worker goes by and its check row. */
  datatype Trace = Trace(err: string, row: Row)

  type Chosen = Trace -> bool

  function TraceOf(n: Node): Option<Trace> {
    match n
    case Pending => None
    case Taken(_) => None
    case Probed(_, err, row) => Some(Trace(err, row))
    case Counted(_, err, row) => Some(Trace(err, row))
  }

  function Weighs(n: Node, p: Chosen): nat {
    if TraceOf(n).Some? && p(TraceOf(n).value) then 1 else 0
  }

  /** How many nodes have left such a trace. */
  function Having(nodes: seq<Node>, p: Chosen): nat {
    if nodes == [] then 0 else Having(nodes[..|nodes| - 1], p) + Weighs(nodes[|nodes| - 1], p)
  }

  lemma {:induction false} HavingAt(nodes: seq<Node>, i: nat, n: Node, p: Chosen)
    requires i < |nodes|
    ensures Having(nodes[i := n], p) == Having(nodes, p) - Weighs(nodes[i], p) + Weighs(n, p)
  {
    var last := |nodes| - 1;
    if i < last {
      HavingAt(nodes[..last], i, n, p);
      assert nodes[i := n][..last] == nodes[..last][i := n];
    } else {
      assert nodes[i := n][..last] == nodes[..last];
    }
  }

  lemma {:induction false} NoTraces(nodes: seq<Node>, p: Chosen)
    requires forall i :: 0 <= i < |nodes| ==> TraceOf(nodes[i]).None?
    ensures Having(nodes, p) == 0
  {
    if nodes != [] {
      NoTraces(nodes[..|nodes| - 1], p);
    }
  }

  /** A probe and what became of storing it. */
  predicate Succeeds(t: Step) {
    t.Probe? && t.result.success && t.fault.NoFault?
  }

  predicate WritesRow(t: Step, success: bool) {
    t.Probe? && t.result.success == success && !t.fault.CreateFails?
  }

  function Number(steps: seq<Step>, q: Step -> bool): nat {
    if steps == [] then 0 else (if q(steps[0]) then 1 else 0) + Number(steps[1..], q)
  }

  /** The traces of one kind are those of the probes of one kind. */
  ghost predicate Match(p: Chosen, q: Step -> bool) {
    && (forall t: Step :: q(t) ==> t.Probe?)
    && forall w: nat, m: P.Mixed, fault: Fault ::
         P.IsProbe(m) && (fault.NoFault? || fault.text != "") ==>
           (q(Probe(w, m, fault)) <==> Weighs(Persisted(w, m, fault), p) == 1)
  }

  lemma {:induction false} StepLeavesTrace(s: State, t: Step, p: Chosen, q: Step -> bool)
    requires Inv(s) && Enabled(s, t) && Match(p, q)
    ensures Having(Next(s, t).nodes, p) == Having(s.nodes, p) + if q(t) then 1 else 0
  {
    if t.Feed? {
      HavingAt(s.nodes, s.next, Taken(t.w), p);
    } else if t.Probe? || t.Report? {
      var i := s.workers[t.w].node;
      HavingAt(s.nodes, i, Next(s, t).nodes[i], p);
    }
  }

  lemma {:induction false} RunLeavesTraces(s: State, steps: seq<Step>, p: Chosen, q: Step -> bool)
    requires Inv(s) && IsRun(s, steps) && Match(p, q)
    ensures Having(After(s, steps).nodes, p) == Having(s.nodes, p) + Number(steps, q)
    decreases |steps|
  {
    if steps != [] {
      StepLeavesTrace(s, steps[0], p, q);
      StepKeepsInv(s, steps[0]);
      RunLeavesTraces(Next(s, steps[0]), steps[1..], p, q);
    }
  }

  function NoError(): Chosen {
    (x: Trace) => x.err == ""
  }

  function HasRow(success: bool): Chosen {
    (x: Trace) => x.row == RowFor(success)
  }

  lemma {:induction false} SuccessesMatch()
    ensures Match(NoError(), Succeeds)
  {
    forall w: nat, m: P.Mixed, fault: Fault | P.IsProbe(m) && (fault.NoFault? || fault.text != "")
      ensures Succeeds(Probe(w, m, fault)) <==> Weighs(Persisted(w, m, fault), NoError()) == 1
    {
      P.EveryProbeIsCoherent(m);
    }
  }

  lemma {:induction false} RowsMatch(success: bool)
    ensures Match(HasRow(success), t => WritesRow(t, success))
  {
  }

  lemma {:induction false} CountsAreTraces(nodes: seq<Node>)
    requires forall i :: 0 <= i < |nodes| ==> nodes[i].Counted?
    ensures CountOf(nodes, true) == Having(nodes, NoError())
  {
    if nodes != [] {
      CountsAreTraces(nodes[..|nodes| - 1]);
    }
  }

  lemma {:induction false} RowsAreTraces(nodes: seq<Node>, success: bool)
    ensures RowsOf(nodes, success) == Having(nodes, HasRow(success))
  {
    if nodes != [] {
      RowsAreTraces(nodes[..|nodes| - 1], success);
    }
  }

  /** Main result: the successes of a finished job are its probes that succeeded and could be stored, its other nodes
      are its failures, and it has written a check row with the probe's success for every probe but those whose row
      could not be created. */
  lemma {:induction false} FinishedJobCountsItsProbes(total: nat, concurrency: nat, steps: seq<Step>)
    requires IsRun(Start(total, concurrency), steps)
    requires After(Start(total, concurrency), steps).job.status.phase == Done
    ensures var s := After(Start(total, concurrency), steps);
            && s.job.status.success == Number(steps, Succeeds)
            && s.job.status.failed == total - Number(steps, Succeeds)
            && RowsOf(s.nodes, true) == Number(steps, t => WritesRow(t, true))
            && RowsOf(s.nodes, false) == Number(steps, t => WritesRow(t, false))
  {
    var start := Start(total, concurrency);
    StartIsOk(total, concurrency);
    RunKeepsInv(start, steps);
    NodesStay(start, steps);
    SuccessesAreProbes(total, concurrency, steps);
    RowsAreProbes(total, concurrency, steps, true);
    RowsAreProbes(total, concurrency, steps, false);
    AllCounted(After(start, steps));
  }

  lemma {:induction false} NodesStay(s: State, steps: seq<Step>)
    requires IsRun(s, steps)
    ensures |After(s, steps).nodes| == |s.nodes| && |After(s, steps).workers| == |s.workers|
    decreases |steps|
  {
    if steps != [] {
      NodesStay(Next(s, steps[0]), steps[1..]);
    }
  }

  lemma {:induction false} SuccessesAreProbes(total: nat, concurrency: nat, steps: seq<Step>)
    requires IsRun(Start(total, concurrency), steps)
    requires After(Start(total, concurrency), steps).job.status.phase == Done
    ensures After(Start(total, concurrency), steps).job.status.success == Number(steps, Succeeds)
  {
    var start := Start(total, concurrency);
    StartIsOk(total, concurrency);
    RunKeepsInv(start, steps);
    AllCounted(After(start, steps));
    CountsAreTraces(After(start, steps).nodes);
    SuccessesMatch();
    NoTraces(start.nodes, NoError());
    RunLeavesTraces(start, steps, NoError(), Succeeds);
  }

  lemma {:induction false} RowsAreProbes(total: nat, concurrency: nat, steps: seq<Step>, success: bool)
    requires IsRun(Start(total, concurrency), steps)
    ensures RowsOf(After(Start(total, concurrency), steps).nodes, success) == Number(steps, t => WritesRow(t, success))
  {
    var start := Start(total, concurrency);
    StartIsOk(total, concurrency);
    RowsAreTraces(After(start, steps).nodes, success);
    RowsMatch(success);
    NoTraces(start.nodes, HasRow(success));
    RunLeavesTraces(start, steps, HasRow(success), t => WritesRow(t, success));
  }

  // ----- Workers and progress -----

  /** A job has as many workers as configured, at least one, and none if there is nothing to do. */
  lemma {:induction false} WorkersAreConfigured(total: nat, concurrency: nat, steps: seq<Step>)
    requires IsRun(Start(total, concurrency), steps)
    ensures |After(Start(total, concurrency), steps).workers| ==
              if total == 0 then 0 else if concurrency == 0 then 1 else concurrency
  {
    NodesStay(Start(total, concurrency), steps);
  }

  /** A worker that has counted a node and not yet told of the progress. */
  function Untold(x: Worker): nat {
    if x.SendingResult? || x.Touching? then 1 else 0
  }

  function UntoldByAll(workers: seq<Worker>): nat {
    if workers == [] then 0 else UntoldByAll(workers[..|workers| - 1]) + Untold(workers[|workers| - 1])
  }

  lemma {:induction false} UntoldAt(workers: seq<Worker>, w: nat, x: Worker)
    requires w < |workers|
    ensures UntoldByAll(workers[w := x]) == UntoldByAll(workers) - Untold(workers[w]) + Untold(x)
  {
    var n := |workers| - 1;
    if w < n {
      assert workers[w := x][..n] == workers[..n][w := x];
      UntoldAt(workers[..n], w, x);
    } else {
      assert workers[w := x][..n] == workers[..n];
    }
  }

  lemma {:induction false} NothingUntold(workers: seq<Worker>)
    requires forall w :: 0 <= w < |workers| ==> workers[w].Idle? || workers[w].Exited?
    ensures UntoldByAll(workers) == 0
  {
    if workers != [] {
      NothingUntold(workers[..|workers| - 1]);
    }
  }

  lemma {:induction false} StepTells(s: State, t: Step)
    requires Enabled(s, t)
    ensures Next(s, t).job.status.done - UntoldByAll(Next(s, t).workers) ==
            s.job.status.done - UntoldByAll(s.workers) + if t.Touch? then 1 else 0
  {
    if t.Feed? || t.Leave? || t.Probe? || t.Report? || t.Touch? || t.SendTo? || t.AllSent? {
      if !Next(s, t).crashed {
        UntoldAt(s.workers, t.w, Next(s, t).workers[t.w]);
      }
    }
  }

  lemma {:induction false} RunTells(s: State, steps: seq<Step>)
    requires IsRun(s, steps)
    ensures After(s, steps).job.status.done - UntoldByAll(After(s, steps).workers) ==
            s.job.status.done - UntoldByAll(s.workers) + Number(steps, (t: Step) => t.Touch?)
    decreases |steps|
  {
    if steps != [] {
      StepTells(s, steps[0]);
      RunTells(Next(s, steps[0]), steps[1..]);
    }
  }

  /** A finished job has published one progress event for each of its nodes. */
  lemma {:induction false} ProgressFollowsEveryNode(total: nat, concurrency: nat, steps: seq<Step>)
    requires IsRun(Start(total, concurrency), steps)
    requires After(Start(total, concurrency), steps).job.status.phase == Done
    ensures Number(steps, (t: Step) => t.Touch?) == total
  {
    var start := Start(total, concurrency);
    StartIsOk(total, concurrency);
    RunKeepsInv(start, steps);
    NodesStay(start, steps);
    AllCounted(After(start, steps));
    NothingUntold(start.workers);
    NothingUntold(After(start, steps).workers);
    RunTells(start, steps);
  }
}
