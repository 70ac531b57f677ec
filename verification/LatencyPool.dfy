/** RefreshSubscriptionLatency (server/internal/service/target_service.go) as a protocol: the caller first
    feeds every node to the workers over an unbuffered channel and only then collects their results. */
module LatencyPool {
  import opened Text

  type Latency = Option<nat>

  datatype Node = Pending | Held(w: nat) | Delivered(latency: Latency)

  datatype Worker = Idle | Probing(node: nat) | Delivering(node: nat, latency: Latency) | Exited

  datatype Caller = Feeding | Collecting | Over

  datatype Result = Result(node: nat, latency: Latency)

  /** results is the buffered channel, collected what the caller has read from it so far. */
  datatype State = State(
    nodes: seq<Node>, next: nat, workers: seq<Worker>, results: seq<Result>, collected: seq<Result>,
    updated: nat, caller: Caller)

  datatype Step =
    | Feed(w: nat)
    | CloseJobs
    | Leave(w: nat)
    | Probe(w: nat, latency: Latency, persisted: bool)
    | Deliver(w: nat)                 // results <- result, blocked while the buffer is full
    | Collect(stored: bool)
    | Return

  function Start(total: nat, concurrency: nat): State {
    State(seq(total, _ => Pending), 0, seq(concurrency, _ => Idle), [], [], 0, Feeding)
  }

  predicate Enabled(s: State, t: Step) {
    match t
    case Feed(w) => s.caller.Feeding? && s.next < |s.nodes| && w < |s.workers| && s.workers[w].Idle?
    case CloseJobs => s.caller.Feeding? && s.next >= |s.nodes|
    case Leave(w) => !s.caller.Feeding? && w < |s.workers| && s.workers[w].Idle?
    case Probe(w, _, _) => w < |s.workers| && s.workers[w].Probing?
    case Deliver(w) =>
      w < |s.workers| && s.workers[w].Delivering? && s.workers[w].node < |s.nodes| && |s.results| < |s.nodes|
    case Collect(_) => s.caller.Collecting? && |s.collected| < |s.nodes| && s.results != []
    case Return => s.caller.Collecting? && |s.collected| >= |s.nodes|
  }

  function Next(s: State, t: Step): State
    requires Enabled(s, t)
  {
    match t
    case Feed(w) =>
      s.(nodes := s.nodes[s.next := Held(w)], workers := s.workers[w := Probing(s.next)], next := s.next + 1)
    case CloseJobs => s.(caller := Collecting)
    case Leave(w) => s.(workers := s.workers[w := Exited])
    case Probe(w, latency, persisted) =>
      s.(workers := s.workers[w := Delivering(s.workers[w].node, if persisted then latency else None)])
    case Deliver(w) =>
      var x := s.workers[w];
      s.(results := s.results + [Result(x.node, x.latency)], nodes := s.nodes[x.node := Delivered(x.latency)],
         workers := s.workers[w := Idle])
    case Collect(stored) =>
      s.(collected := s.collected + [s.results[0]], results := s.results[1..],
         updated := s.updated + if stored then 1 else 0)
    case Return => s.(caller := Over)
  }

  ghost predicate IsRun(s: State, steps: seq<Step>)
    decreases |steps|
  {
    steps == [] || (Enabled(s, steps[0]) && IsRun(Next(s, steps[0]), steps[1..]))
  }

  function After(s: State, steps: seq<Step>): State
    requires IsRun(s, steps)
    decreases |steps|
  {
    if steps == [] then s else After(Next(s, steps[0]), steps[1..])
  }

  // ----- Counting -----

  function DeliveredCount(nodes: seq<Node>): nat {
    if nodes == [] then 0
    else DeliveredCount(nodes[..|nodes| - 1]) + if nodes[|nodes| - 1].Delivered? then 1 else 0
  }

  lemma {:induction false} DeliveredCountAt(nodes: seq<Node>, i: nat, n: Node)
    requires i < |nodes| && !nodes[i].Delivered?
    ensures DeliveredCount(nodes[i := n]) == DeliveredCount(nodes) + if n.Delivered? then 1 else 0
    ensures DeliveredCount(nodes) < |nodes|
  {
    var last := |nodes| - 1;
    DeliveredCountMax(nodes[..last]);
    if i < last {
      DeliveredCountAt(nodes[..last], i, n);
      assert nodes[i := n][..last] == nodes[..last][i := n];
    } else {
      assert nodes[i := n][..last] == nodes[..last];
    }
  }

  lemma {:induction false} DeliveredCountMax(nodes: seq<Node>)
    ensures DeliveredCount(nodes) <= |nodes|
    ensures DeliveredCount(nodes) == |nodes| ==> forall i :: 0 <= i < |nodes| ==> nodes[i].Delivered?
  {
    if nodes != [] {
      DeliveredCountMax(nodes[..|nodes| - 1]);
    }
  }

  // ----- The invariant -----

  predicate HasNode(x: Worker) {
    x.Probing? || x.Delivering?
  }

  ghost predicate NodesOk(s: State) {
    && s.next <= |s.nodes|
    && (forall i :: 0 <= i < |s.nodes| ==> (s.nodes[i].Pending? <==> i >= s.next))
    && (forall i :: 0 <= i < |s.nodes| && s.nodes[i].Held? ==>
          s.nodes[i].w < |s.workers| && HasNode(s.workers[s.nodes[i].w]) && s.workers[s.nodes[i].w].node == i)
    && (forall w :: 0 <= w < |s.workers| && HasNode(s.workers[w]) ==>
          s.workers[w].node < |s.nodes| && s.nodes[s.workers[w].node] == Held(w))
  }

  /** All results so far, in the order of their delivery. */
  function AllResults(s: State): seq<Result> {
    s.collected + s.results
  }

  /** Every result is the one of its node, and no node has two. */
  ghost predicate ResultsOk(s: State) {
    var all := AllResults(s);
    && |all| == DeliveredCount(s.nodes)
    && (forall k :: 0 <= k < |all| ==> all[k].node < |s.nodes| && s.nodes[all[k].node] == Delivered(all[k].latency))
    && (forall j, k :: 0 <= j < k < |all| ==> all[j].node != all[k].node)
  }

  ghost predicate CallerOk(s: State) {
    && (s.caller.Feeding? ==> forall w :: 0 <= w < |s.workers| ==> !s.workers[w].Exited?)
    && (!s.caller.Feeding? ==> s.next == |s.nodes|)
    && (s.caller.Feeding? ==> s.collected == [])
    && (s.caller.Over? ==> |s.collected| == |s.nodes|)
    && |s.collected| <= |s.nodes|
    && s.updated <= |s.collected|
  }

  ghost predicate Inv(s: State) {
    |s.workers| > 0 && NodesOk(s) && ResultsOk(s) && CallerOk(s)
  }

  lemma {:induction false} NothingDelivered(nodes: seq<Node>)
    requires forall i :: 0 <= i < |nodes| ==> !nodes[i].Delivered?
    ensures DeliveredCount(nodes) == 0
  {
    if nodes != [] {
      NothingDelivered(nodes[..|nodes| - 1]);
    }
  }

  lemma StartIsOk(total: nat, concurrency: nat)
    requires concurrency > 0
    ensures Inv(Start(total, concurrency))
  {
    NothingDelivered(Start(total, concurrency).nodes);
  }

  lemma {:induction false} FeedKeepsNodes(s: State, w: nat)
    requires NodesOk(s) && Enabled(s, Feed(w))
    ensures NodesOk(Next(s, Feed(w)))
  {
    assert forall v :: 0 <= v < |s.workers| && HasNode(s.workers[v]) ==> s.workers[v].node != s.next;
  }

  lemma {:induction false} DeliverKeepsNodes(s: State, w: nat)
    requires NodesOk(s) && Enabled(s, Deliver(w))
    ensures NodesOk(Next(s, Deliver(w)))
  {
    var i := s.workers[w].node;
    assert s.nodes[i] == Held(w);
    assert forall v :: 0 <= v < |s.workers| && v != w && HasNode(s.workers[v]) ==> s.workers[v].node != i;
  }

  lemma {:induction false} WorkingKeepsNodes(s: State, t: Step)
    requires NodesOk(s) && Enabled(s, t) && (t.Probe? || t.Leave?)
    ensures NodesOk(Next(s, t))
  {
  }

  lemma {:induction false} StepKeepsNodes(s: State, t: Step)
    requires NodesOk(s) && Enabled(s, t)
    ensures NodesOk(Next(s, t))
  {
    match t
    case Feed(w) => FeedKeepsNodes(s, w);
    case Deliver(w) => DeliverKeepsNodes(s, w);
    case Leave(_) => WorkingKeepsNodes(s, t);
    case Probe(_, _, _) => WorkingKeepsNodes(s, t);
    case CloseJobs =>
    case Collect(_) =>
    case Return =>
  }

  lemma DeliverKeepsResults(s: State, w: nat)
    requires Inv(s) && Enabled(s, Deliver(w))
    ensures ResultsOk(Next(s, Deliver(w)))
  {
    var x, s' := s.workers[w], Next(s, Deliver(w));
    DeliveredCountAt(s.nodes, x.node, Delivered(x.latency));
    assert AllResults(s') == AllResults(s) + [Result(x.node, x.latency)];
    assert forall k :: 0 <= k < |AllResults(s)| ==> AllResults(s)[k].node != x.node;
  }

  lemma StepKeepsResults(s: State, t: Step)
    requires Inv(s) && Enabled(s, t)
    ensures ResultsOk(Next(s, t))
  {
    match t
    case Deliver(w) => DeliverKeepsResults(s, w);
    case Feed(w) => DeliveredCountAt(s.nodes, s.next, Held(w));
    case Collect(_) => assert AllResults(Next(s, t)) == AllResults(s);
    case _ =>
  }

  lemma StepKeepsCaller(s: State, t: Step)
    requires Inv(s) && Enabled(s, t)
    ensures CallerOk(Next(s, t))
  {
  }

  lemma StepKeepsInv(s: State, t: Step)
    requires Inv(s) && Enabled(s, t)
    ensures Inv(Next(s, t))
  {
    StepKeepsNodes(s, t);
    StepKeepsResults(s, t);
    StepKeepsCaller(s, t);
  }

  lemma {:induction false} RunKeepsInv(s: State, steps: seq<Step>)
    requires Inv(s) && IsRun(s, steps)
    ensures Inv(After(s, steps))
    decreases |steps|
  {
    if steps != [] {
      StepKeepsInv(s, steps[0]);
      RunKeepsInv(Next(s, steps[0]), steps[1..]);
    }
  }

  // ----- Results -----

  /** Main result: although the caller reads no result before all nodes are fed, no worker ever waits
      for room in the buffer. */
  lemma DeliveryNeverBlocks(s: State, w: nat)
    requires Inv(s) && w < |s.workers| && s.workers[w].Delivering?
    ensures Enabled(s, Deliver(w))
  {
    var i := s.workers[w].node;
    assert s.nodes[i] == Held(w);
    DeliveredCountAt(s.nodes, i, Delivered(None));
  }

  /** Main result: when the call returns it has read exactly one result for each node, the one its worker
      delivered, and has stored at most that many. */
  lemma OneResultPerNode(total: nat, concurrency: nat, steps: seq<Step>)
    requires concurrency > 0 && IsRun(Start(total, concurrency), steps)
    requires After(Start(total, concurrency), steps).caller.Over?
    ensures var s := After(Start(total, concurrency), steps);
            && |s.nodes| == |s.collected| == total && s.updated <= total
            && (forall j, k :: 0 <= j < k < total ==> s.collected[j].node != s.collected[k].node)
            && (forall k :: 0 <= k < total ==>
                  s.collected[k].node < total && s.nodes[s.collected[k].node] == Delivered(s.collected[k].latency))
            && (forall i :: 0 <= i < total ==> s.nodes[i].Delivered?)
  {
    StartIsOk(total, concurrency);
    RunKeepsInv(Start(total, concurrency), steps);
    RunKeepsSize(Start(total, concurrency), steps);
    var s := After(Start(total, concurrency), steps);
    DeliveredCountMax(s.nodes);
    assert forall k :: 0 <= k < total ==> AllResults(s)[k] == s.collected[k];
  }

  lemma {:induction false} RunKeepsSize(s: State, steps: seq<Step>)
    requires IsRun(s, steps)
    ensures |After(s, steps).nodes| == |s.nodes|
    decreases |steps|
  {
    if steps != [] {
      RunKeepsSize(Next(s, steps[0]), steps[1..]);
    }
  }

  // ----- What the results are -----

  /** What a probe of a node delivers: what it measured, or nothing if it could not be stored. */
  function DeliveredBy(latency: Latency, persisted: bool): Latency {
    if persisted then latency else None
  }

  /** A worker has probed the node and holds, or has delivered, this latency. */
  ghost predicate IsProbed(s: State, i: nat, latency: Latency)
    requires i < |s.nodes|
  {
    match s.nodes[i]
    case Pending => false
    case Held(w) => w < |s.workers| && s.workers[w] == Delivering(i, latency)
    case Delivered(l) => l == latency
  }

  ghost predicate IsUnprobed(s: State, i: nat)
    requires i < |s.nodes|
  {
    s.nodes[i].Pending? || (s.nodes[i].Held? && s.nodes[i].w < |s.workers| && s.workers[s.nodes[i].w].Probing?)
  }

  lemma {:induction false} StepKeepsProbed(s: State, t: Step, i: nat, latency: Latency)
    requires NodesOk(s) && Enabled(s, t) && i < |s.nodes| && IsProbed(s, i, latency)
    ensures IsProbed(Next(s, t), i, latency)
  {
    assert s.nodes[i].Held? ==> forall w :: 0 <= w < |s.workers| && w != s.nodes[i].w && HasNode(s.workers[w]) ==>
           s.workers[w].node != i;
  }

  lemma {:induction false} RunKeepsProbed(s: State, steps: seq<Step>, i: nat, latency: Latency)
    requires Inv(s) && IsRun(s, steps) && i < |s.nodes| && IsProbed(s, i, latency)
    ensures i < |After(s, steps).nodes| && IsProbed(After(s, steps), i, latency)
    decreases |steps|
  {
    if steps != [] {
      StepKeepsProbed(s, steps[0], i, latency);
      StepKeepsInv(s, steps[0]);
      RunKeepsProbed(Next(s, steps[0]), steps[1..], i, latency);
    }
  }

  /** A node is probed by the step of the worker that holds it, and by no other. */
  lemma {:induction false} StepProbes(s: State, t: Step, i: nat)
    requires NodesOk(s) && Enabled(s, t) && i < |s.nodes| && IsUnprobed(s, i)
    ensures if t.Probe? && s.workers[t.w].node == i then IsProbed(Next(s, t), i, DeliveredBy(t.latency, t.persisted))
            else IsUnprobed(Next(s, t), i)
  {
    assert s.nodes[i].Held? ==> forall w :: 0 <= w < |s.workers| && w != s.nodes[i].w && HasNode(s.workers[w]) ==>
           s.workers[w].node != i;
  }

  /** The step that probed a node. */
  ghost predicate ProbesNode(s: State, steps: seq<Step>, k: nat, i: nat, latency: Latency)
    requires IsRun(s, steps)
  {
    && k < |steps| && steps[k].Probe? && IsRun(s, steps[..k])
    && var q := After(s, steps[..k]);
       && steps[k].w < |q.workers| && q.workers[steps[k].w] == Probing(i)
       && latency == DeliveredBy(steps[k].latency, steps[k].persisted)
  }

  lemma {:induction false} WhoProbed(s: State, steps: seq<Step>, i: nat) returns (k: nat)
    requires Inv(s) && IsRun(s, steps) && i < |s.nodes| && IsUnprobed(s, i)
    requires i < |After(s, steps).nodes| && After(s, steps).nodes[i].Delivered?
    ensures ProbesNode(s, steps, k, i, After(s, steps).nodes[i].latency)
    decreases |steps|
  {
    var t, s' := steps[0], Next(s, steps[0]);
    StepProbes(s, t, i);
    StepKeepsInv(s, t);
    if t.Probe? && s.workers[t.w].node == i {
      k := 0;
      assert steps[..0] == [];
      RunKeepsProbed(s', steps[1..], i, DeliveredBy(t.latency, t.persisted));
    } else {
      var j := WhoProbed(s', steps[1..], i);
      k := j + 1;
      assert steps[..k][0] == t && steps[..k][1..] == steps[1..][..j];
    }
  }

  /** Main result: the result that the caller reads for a node is the latency that its probe measured in this run, and
      none if that probe could not be stored. */
  lemma {:induction false} ResultsAreProbed(total: nat, concurrency: nat, steps: seq<Step>, j: nat) returns (k: nat)
    requires concurrency > 0 && IsRun(Start(total, concurrency), steps)
    requires j < |After(Start(total, concurrency), steps).collected|
    ensures var r := After(Start(total, concurrency), steps).collected[j];
            ProbesNode(Start(total, concurrency), steps, k, r.node, r.latency)
  {
    var start := Start(total, concurrency);
    StartIsOk(total, concurrency);
    RunKeepsInv(start, steps);
    RunKeepsSize(start, steps);
    var s := After(start, steps);
    assert AllResults(s)[j] == s.collected[j];
    k := WhoProbed(start, steps, s.collected[j].node);
  }

  /** As many workers as configured share the work. */
  lemma {:induction false} WorkersAreConfigured(s: State, steps: seq<Step>)
    requires IsRun(s, steps)
    ensures |After(s, steps).workers| == |s.workers|
    ensures forall total: nat, concurrency: nat :: |Start(total, concurrency).workers| == concurrency
    decreases |steps|
  {
    if steps != [] {
      WorkersAreConfigured(Next(s, steps[0]), steps[1..]);
    }
  }

  function Stored(steps: seq<Step>): nat {
    if steps == [] then 0 else (if steps[0] == Collect(true) then 1 else 0) + Stored(steps[1..])
  }

  /** The number that the caller reports is that of the latencies it could store. */
  lemma {:induction false} UpdatedIsStored(s: State, steps: seq<Step>)
    requires IsRun(s, steps)
    ensures After(s, steps).updated == s.updated + Stored(steps)
    decreases |steps|
  {
    if steps != [] {
      UpdatedIsStored(Next(s, steps[0]), steps[1..]);
    }
  }

  // ----- Progress -----

  function WorkerRank(x: Worker): nat {
    match x
    case Exited => 0
    case Idle => 1
    case Delivering(_, _) => 3
    case Probing(_) => 4
  }

  function WorkersRank(xs: seq<Worker>): nat {
    if xs == [] then 0 else WorkersRank(xs[..|xs| - 1]) + WorkerRank(xs[|xs| - 1])
  }

  lemma {:induction false} WorkersRankAt(xs: seq<Worker>, w: nat, x: Worker)
    requires w < |xs|
    ensures WorkersRank(xs[w := x]) == WorkersRank(xs) - WorkerRank(xs[w]) + WorkerRank(x)
  {
    var n := |xs| - 1;
    if w < n {
      WorkersRankAt(xs[..n], w, x);
      assert xs[w := x][..n] == xs[..n][w := x];
    } else {
      assert xs[w := x][..n] == xs[..n];
    }
  }

  function CallerRank(c: Caller): nat {
    match c
    case Feeding => 2
    case Collecting => 1
    case Over => 0
  }

  function Rank(s: State): int {
    4 * (|s.nodes| - s.next) + WorkersRank(s.workers) + (|s.nodes| - |s.collected|) + CallerRank(s.caller)
  }

  lemma {:induction false} StepsLowerRank(s: State, t: Step)
    requires Enabled(s, t)
    ensures Rank(Next(s, t)) < Rank(s)
  {
    if t.Feed? || t.Leave? || t.Probe? || t.Deliver? {
      WorkersRankAt(s.workers, t.w, Next(s, t).workers[t.w]);
    }
  }

  /** Every step uses up rank. */
  lemma {:induction false} StepsUseRank(s: State, t: Step)
    requires Inv(s) && Enabled(s, t)
    ensures 0 <= Rank(Next(s, t)) < Rank(s)
  {
    StepsLowerRank(s, t);
    assert Inv(Next(s, t)) by { StepKeepsInv(s, t); }
  }

  /** No deadlock: until the call has returned and every worker has left, some step is enabled. */
  lemma SomeStepIsEnabled(s: State) returns (t: Step)
    requires Inv(s)
    requires !s.caller.Over? || exists w :: 0 <= w < |s.workers| && !s.workers[w].Exited?
    ensures Enabled(s, t)
  {
    if w :| 0 <= w < |s.workers| && HasNode(s.workers[w]) {
      if s.workers[w].Probing? {
        t := Probe(w, None, true);
      } else {
        DeliveryNeverBlocks(s, w);
        t := Deliver(w);
      }
    } else if s.caller.Feeding? {
      t := if s.next < |s.nodes| then Feed(0) else CloseJobs;
    } else if w :| 0 <= w < |s.workers| && s.workers[w].Idle? {
      t := Leave(w);
    } else if |s.collected| < |s.nodes| {
      CollectableResult(s);
      t := Collect(true);
    } else {
      t := Return;
    }
  }

  /** When nobody holds a node, every result is in the buffer or collected. */
  lemma CollectableResult(s: State)
    requires Inv(s) && !s.caller.Feeding? && |s.collected| < |s.nodes|
    requires forall w :: 0 <= w < |s.workers| ==> !HasNode(s.workers[w])
    ensures s.results != []
  {
    assert forall i :: 0 <= i < |s.nodes| ==> s.nodes[i].Delivered?;
    AllDelivered(s.nodes);
  }

  lemma {:induction false} AllDelivered(nodes: seq<Node>)
    requires forall i :: 0 <= i < |nodes| ==> nodes[i].Delivered?
    ensures DeliveredCount(nodes) == |nodes|
  {
    if nodes != [] {
      AllDelivered(nodes[..|nodes| - 1]);
    }
  }

  /** Main result: every run is finite, and one that cannot go on has returned and let every worker go. */
  lemma {:induction false} RunsFinish(s: State, steps: seq<Step>)
    requires Inv(s) && IsRun(s, steps)
    ensures |steps| + Rank(After(s, steps)) <= Rank(s)
    ensures var end := After(s, steps);
            (forall t :: !Enabled(end, t)) ==>
              end.caller.Over? && forall w :: 0 <= w < |end.workers| ==> end.workers[w].Exited?
    decreases |steps|
  {
    if steps != [] {
      StepsUseRank(s, steps[0]);
      StepKeepsInv(s, steps[0]);
      RunsFinish(Next(s, steps[0]), steps[1..]);
    } else if !s.caller.Over? || exists w :: 0 <= w < |s.workers| && !s.workers[w].Exited? {
      var t := SomeStepIsEnabled(s);
    }
  }
}
