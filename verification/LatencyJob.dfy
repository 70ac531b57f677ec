/** runSubscriptionLatencyJob (server/internal/service/subscription_latency_job.go) as a protocol: the
    runner, its workers and any subscribers, in every interleaving. */
module LatencyJob {
  import opened Text
  import opened JobChannels
  import P = Probe

  /** What persisting a probe can run into (probeAndPersistSubscriptionNode); database errors have a text. */
  datatype Fault = NoFault | CreateFails(text: string) | UpdateFails(text: string)

  /** The check row of a node, with its success flag. */
  datatype Row = Unwritten | Passed | Flunked

  function RowFor(success: bool): Row {
    if success then Passed else Flunked
  }

  /** A node's way through the job; err is what its worker will count by. */
  datatype Node =
    | Pending
    | Taken(w: nat)
    | Probed(w: nat, err: string, row: Row)
    | Counted(w: nat, err: string, row: Row)

  /** A worker: blocked on the unbuffered channel, probing, about to take the lock for its two updates,
      or sending the event of the last update to the subscribers copied under the lock. */
  datatype Worker =
    | Idle
    | Probing(node: nat)
    | Reporting(node: nat)
    | SendingResult(event: Event, to: set<nat>)
    | Touching
    | SendingProgress(event: Event, to: set<nat>)
    | Exited

  datatype Runner =
    | Feeding
    | Waiting
    | Finishing
    | SendingDone(event: Event, to: set<nat>)
    | ClosingAll
    | Over

  datatype State = State(job: Job, nodes: seq<Node>, next: nat, workers: seq<Worker>, runner: Runner, crashed: bool)

  datatype Step =
    // the runner
    | Feed(w: nat)                    // jobs <- nodes[next], received by worker w
    | CloseJobs                       // all nodes fed: close(jobs)
    | WaitOver                        // wg.Wait() returns
    | Finish                          // the locked part of the last update
    | SendDone(ch: nat)
    | DoneSent
    | CloseAllSubscribers
    // a worker
    | Leave(w: nat)                   // the channel is closed
    | Probe(w: nat, result: P.Mixed, fault: Fault)
    | Report(w: nat)                  // the locked part of the node_result update
    | Touch(w: nat)                   // the locked part of the progress update
    | SendTo(w: nat, ch: nat)
    | AllSent(w: nat)
    // the outside
    | Join
    | Quit(ch: nat)
    | Take(ch: nat)

  predicate IsOutside(t: Step) {
    t.Join? || t.Quit? || t.Take?
  }

  function Start(total: nat, concurrency: nat): State {
    State(Job(Status(Running, total, 0, 0, 0), {}, []), seq(total, _ => Pending), 0,
          if total == 0 then [] else seq(if concurrency == 0 then 1 else concurrency, _ => Idle),
          if total == 0 then Finishing else Feeding, false)
  }

  predicate IsSending(x: Worker) {
    x.SendingResult? || x.SendingProgress?
  }

  ghost predicate Enabled(s: State, t: Step) {
    && !s.crashed
    && match t
       case Feed(w) => s.runner.Feeding? && s.next < |s.nodes| && w < |s.workers| && s.workers[w].Idle?
       case CloseJobs => s.runner.Feeding? && s.next >= |s.nodes|
       case WaitOver => s.runner.Waiting? && forall w :: 0 <= w < |s.workers| ==> s.workers[w].Exited?
       case Finish => s.runner.Finishing?
       case SendDone(ch) => s.runner.SendingDone? && ch in s.runner.to && ch < |s.job.chans|
       case DoneSent => s.runner.SendingDone? && s.runner.to == {}
       case CloseAllSubscribers => s.runner.ClosingAll?
       case Leave(w) => w < |s.workers| && s.workers[w].Idle? && !s.runner.Feeding?
       case Probe(w, m, fault) =>
         && w < |s.workers| && s.workers[w].Probing? && s.workers[w].node < |s.nodes|
         && P.IsProbe(m) && (fault.NoFault? || fault.text != "")
       case Report(w) =>
         && w < |s.workers| && s.workers[w].Reporting?
         && s.workers[w].node < |s.nodes| && s.nodes[s.workers[w].node].Probed?
       case Touch(w) => w < |s.workers| && s.workers[w].Touching?
       case SendTo(w, ch) =>
         w < |s.workers| && IsSending(s.workers[w]) && ch in s.workers[w].to && ch < |s.job.chans|
       case AllSent(w) => w < |s.workers| && IsSending(s.workers[w]) && s.workers[w].to == {}
       case Join => true
       case Quit(ch) => ch < |s.job.chans|
       case Take(ch) => ch < |s.job.chans| && s.job.chans[ch].buffer != []
  }

  function SetWorker(s: State, w: nat, x: Worker): State
    requires w < |s.workers|
  {
    s.(workers := s.workers[w := x])
  }

  function Count(st: Status, ok: bool): Status {
    var st' := st.(done := st.done + 1);
    if ok then st'.(success := st'.success + 1) else st'.(failed := st'.failed + 1)
  }

  /** The node_result update: count the node, copy the status and the subscribers. */
  function ReportLocked(s: State, w: nat): State
    requires Enabled(s, Report(w))
  {
    var i := s.workers[w].node;
    var n := s.nodes[i];
    var st := Count(s.job.status, n.err == "");
    SetWorker(s, w, SendingResult(Event(NodeResult, st, Some(i)), s.job.subscribers))
      .(job := s.job.(status := st), nodes := s.nodes[i := Counted(n.w, n.err, n.row)])
  }

  /** A send to one of the copied subscribers, which crashes the process if that channel is closed. */
  function SendLocked(s: State, w: nat, ch: nat): State
    requires Enabled(s, SendTo(w, ch))
  {
    if SendPanics(s.job, ch) then s.(crashed := true)
    else SetWorker(s, w, s.workers[w].(to := s.workers[w].to - {ch})).(job := Send(s.job, ch, s.workers[w].event))
  }

  /** The row has the success flag of the probe; the worker goes by the error text, its own or the database's. */
  function Persisted(w: nat, m: P.Mixed, fault: Fault): Node {
    var row := if fault.CreateFails? then Unwritten else RowFor(m.success);
    Probed(w, if fault.NoFault? then m.errorMsg else fault.text, row)
  }

  function Next(s: State, t: Step): State
    requires Enabled(s, t)
  {
    match t
    case Feed(w) =>
      SetWorker(s, w, Probing(s.next)).(nodes := s.nodes[s.next := Taken(w)], next := s.next + 1)
    case CloseJobs => s.(runner := Waiting)
    case WaitOver => s.(runner := Finishing)
    case Finish =>
      var st := s.job.status.(phase := Done);
      s.(job := s.job.(status := st), runner := SendingDone(Event(Finished, st, None), s.job.subscribers))
    case SendDone(ch) =>
      if SendPanics(s.job, ch) then s.(crashed := true)
      else s.(job := Send(s.job, ch, s.runner.event), runner := s.runner.(to := s.runner.to - {ch}))
    case DoneSent => s.(runner := ClosingAll)
    case CloseAllSubscribers => s.(job := CloseAll(s.job), runner := Over)
    case Leave(w) => SetWorker(s, w, Exited)
    case Probe(w, m, fault) =>
      var i := s.workers[w].node;
      SetWorker(s, w, Reporting(i)).(nodes := s.nodes[i := Persisted(w, m, fault)])
    case Report(w) => ReportLocked(s, w)
    case Touch(w) => SetWorker(s, w, SendingProgress(Event(Progress, s.job.status, None), s.job.subscribers))
    case SendTo(w, ch) => SendLocked(s, w, ch)
    case AllSent(w) => SetWorker(s, w, if s.workers[w].SendingResult? then Touching else Idle)
    case Join => s.(job := Subscribe(s.job))
    case Quit(ch) => s.(job := Unsubscribe(s.job, ch))
    case Take(ch) => s.(job := Receive(s.job, ch))
  }

  ghost predicate IsRun(s: State, steps: seq<Step>)
    decreases |steps|
  {
    steps == [] || (Enabled(s, steps[0]) && IsRun(Next(s, steps[0]), steps[1..]))
  }

  function After(s: State, steps: seq<Step>): State
    requires IsRun(s, steps)
    decreases |steps|
  {
    if steps == [] then s else After(Next(s, steps[0]), steps[1..])
  }

  // ----- Counting -----

  function CountOf(nodes: seq<Node>, ok: bool): nat {
    if nodes == [] then 0
    else
      var n := nodes[|nodes| - 1];
      CountOf(nodes[..|nodes| - 1], ok) + Weight(n, ok)
  }

  function Weight(n: Node, ok: bool): nat {
    if n.Counted? && (n.err == "") == ok then 1 else 0
  }

  lemma {:induction false} CountOfAt(nodes: seq<Node>, i: nat, n: Node, ok: bool)
    requires i < |nodes|
    ensures CountOf(nodes[i := n], ok) == CountOf(nodes, ok) - Weight(nodes[i], ok) + Weight(n, ok)
  {
    var last := |nodes| - 1;
    if i < last {
      CountOfAt(nodes[..last], i, n, ok);
      assert nodes[i := n][..last] == nodes[..last][i := n];
    } else {
      assert nodes[i := n][..last] == nodes[..last];
    }
  }

  lemma {:induction false} CountOfAll(nodes: seq<Node>)
    ensures CountOf(nodes, true) + CountOf(nodes, false) <= |nodes|
    ensures (forall i :: 0 <= i < |nodes| ==> nodes[i].Counted?) ==>
              CountOf(nodes, true) + CountOf(nodes, false) == |nodes|
    ensures (forall i :: 0 <= i < |nodes| ==> !nodes[i].Counted?) ==> CountOf(nodes, true) + CountOf(nodes, false) == 0
  {
    if nodes != [] {
      CountOfAll(nodes[..|nodes| - 1]);
    }
  }

  // ----- The invariant -----

  ghost predicate StatusOk(s: State) {
    var st := s.job.status;
    && st.total == |s.nodes|
    && st.success == CountOf(s.nodes, true) && st.failed == CountOf(s.nodes, false)
    && st.done == st.success + st.failed
  }

  /** Every node before next has been taken, and by exactly the worker that holds it. */
  ghost predicate NodesOk(s: State) {
    && s.next <= |s.nodes|
    && (forall i :: 0 <= i < |s.nodes| ==> (s.nodes[i].Pending? <==> i >= s.next))
    && (forall i :: 0 <= i < |s.nodes| && s.nodes[i].Taken? ==>
          s.nodes[i].w < |s.workers| && s.workers[s.nodes[i].w] == Probing(i))
    && (forall i :: 0 <= i < |s.nodes| && s.nodes[i].Probed? ==>
          s.nodes[i].w < |s.workers| && s.workers[s.nodes[i].w] == Reporting(i))
    && (forall w :: 0 <= w < |s.workers| && s.workers[w].Probing? ==>
          s.workers[w].node < |s.nodes| && s.nodes[s.workers[w].node] == Taken(w))
    && (forall w :: 0 <= w < |s.workers| && s.workers[w].Reporting? ==>
          s.workers[w].node < |s.nodes| && s.nodes[s.workers[w].node].Probed? && s.nodes[s.workers[w].node].w == w)
  }

  predicate Ended(r: Runner) {
    r.SendingDone? || r.ClosingAll? || r.Over?
  }

  ghost predicate RunnerOk(s: State) {
    && (s.runner.Feeding? ==> |s.workers| > 0 && forall w :: 0 <= w < |s.workers| ==> !s.workers[w].Exited?)
    && (!s.runner.Feeding? ==> s.next == |s.nodes|)
    && (s.runner.Finishing? || Ended(s.runner) ==> forall w :: 0 <= w < |s.workers| ==> s.workers[w].Exited?)
    && (s.job.status.phase == Done <==> Ended(s.runner))
  }

  ghost predicate ToOk(s: State) {
    && (forall w, ch :: 0 <= w < |s.workers| && IsSending(s.workers[w]) && ch in s.workers[w].to ==> ch < |s.job.chans|)
    && (s.runner.SendingDone? ==> forall ch :: ch in s.runner.to ==> ch < |s.job.chans|)
  }

  ghost predicate Inv(s: State) {
    StatusOk(s) && NodesOk(s) && RunnerOk(s) && ToOk(s) && ChansOk(s.job)
  }

  lemma StartIsOk(total: nat, concurrency: nat)
    ensures Inv(Start(total, concurrency))
  {
    CountOfAll(Start(total, concurrency).nodes);
  }

  lemma NodeStepKeepsStatus(s: State, t: Step, i: nat)
    requires Inv(s) && Enabled(s, t) && (t.Feed? || t.Probe? || t.Report?)
    requires i == if t.Feed? then s.next else s.workers[t.w].node
    ensures StatusOk(Next(s, t))
  {
    CountOfAt(s.nodes, i, Next(s, t).nodes[i], true);
    CountOfAt(s.nodes, i, Next(s, t).nodes[i], false);
  }

  lemma StepKeepsStatus(s: State, t: Step)
    requires Inv(s) && Enabled(s, t)
    ensures StatusOk(Next(s, t))
  {
    if t.Feed? || t.Probe? || t.Report? {
      NodeStepKeepsStatus(s, t, if t.Feed? then s.next else s.workers[t.w].node);
    }
  }

  predicate HasNode(x: Worker) {
    x.Probing? || x.Reporting?
  }

  /** A worker without a node goes on without one. */
  lemma NodesFrame(s: State, w: nat, s': State)
    requires NodesOk(s) && w < |s.workers| && s'.nodes == s.nodes && s'.next == s.next
    requires |s'.workers| == |s.workers| && s'.workers == s.workers[w := s'.workers[w]]
    requires !HasNode(s.workers[w]) && !HasNode(s'.workers[w])
    ensures NodesOk(s')
  {
  }

  lemma FeedKeepsNodes(s: State, w: nat)
    requires NodesOk(s) && Enabled(s, Feed(w))
    ensures NodesOk(Next(s, Feed(w)))
  {
  }

  /** A worker goes on with its node: from probing to reporting, or to the count. */
  lemma WorkKeepsNodes(s: State, w: nat, i: nat, n: Node, x: Worker, s': State)
    requires NodesOk(s) && w < |s.workers| && i < |s.nodes|
    requires HasNode(s.workers[w]) && s.workers[w].node == i
    requires s'.nodes == s.nodes[i := n] && s'.workers == s.workers[w := x] && s'.next == s.next
    requires (n.Probed? && n.w == w && x == Reporting(i)) || (n.Counted? && !HasNode(x))
    ensures NodesOk(s')
  {
    assert !s.nodes[i].Pending?;
    assert forall j :: 0 <= j < |s.nodes| && j != i ==> s'.nodes[j] == s.nodes[j];
    assert forall v :: 0 <= v < |s.workers| && v != w ==> s'.workers[v] == s.workers[v];
  }

  lemma SendKeepsNodes(s: State, w: nat, ch: nat)
    requires NodesOk(s) && Enabled(s, SendTo(w, ch))
    ensures NodesOk(SendLocked(s, w, ch))
  {
    if !SendPanics(s.job, ch) {
      NodesFrame(s, w, SendLocked(s, w, ch));
    }
  }

  lemma NodesOutside(s: State, s': State)
    requires NodesOk(s) && s'.nodes == s.nodes && s'.next == s.next && s'.workers == s.workers
    ensures NodesOk(s')
  {
  }

  lemma StepKeepsNodes(s: State, t: Step)
    requires Inv(s) && Enabled(s, t)
    ensures NodesOk(Next(s, t))
  {
    var s' := Next(s, t);
    match t
    case Feed(w) => FeedKeepsNodes(s, w);
    case Probe(w, _, _) => WorkKeepsNodes(s, w, s.workers[w].node, s'.nodes[s.workers[w].node], s'.workers[w], s');
    case Report(w) => WorkKeepsNodes(s, w, s.workers[w].node, s'.nodes[s.workers[w].node], s'.workers[w], s');
    case Leave(w) => NodesFrame(s, w, s');
    case Touch(w) => NodesFrame(s, w, s');
    case AllSent(w) => NodesFrame(s, w, s');
    case SendTo(w, ch) => SendKeepsNodes(s, w, ch);
    case _ => NodesOutside(s, s');
  }

  /** A worker's step leaves the runner alone; it may exit only when the feeding is over. */
  lemma WorkerKeepsRunner(s: State, w: nat, x: Worker, s': State)
    requires RunnerOk(s) && w < |s.workers| && !s.workers[w].Exited?
    requires s'.workers == s.workers[w := x] && (x.Exited? ==> !s.runner.Feeding?)
    requires s'.runner == s.runner && |s'.nodes| == |s.nodes| && s.next <= s'.next <= |s'.nodes|
    requires s'.job.status.phase == s.job.status.phase
    ensures RunnerOk(s')
  {
  }

  lemma RunnerKeepsRunner(s: State, t: Step)
    requires Inv(s) && Enabled(s, t)
    requires t.CloseJobs? || t.WaitOver? || t.Finish? || t.SendDone? || t.DoneSent? || t.CloseAllSubscribers? ||
              IsOutside(t)
    ensures RunnerOk(Next(s, t))
  {
  }

  lemma StepKeepsRunner(s: State, t: Step)
    requires Inv(s) && Enabled(s, t)
    ensures RunnerOk(Next(s, t))
  {
    if t.Feed? || t.Leave? || t.Probe? || t.Report? || t.Touch? || t.SendTo? || t.AllSent? {
      if !Next(s, t).crashed {
        WorkerKeepsRunner(s, t.w, Next(s, t).workers[t.w], Next(s, t));
      }
    } else {
      RunnerKeepsRunner(s, t);
    }
  }

  lemma StepKeepsTo(s: State, t: Step)
    requires Inv(s) && Enabled(s, t)
    ensures ToOk(Next(s, t))
  {
  }

  lemma StepKeepsChans(s: State, t: Step)
    requires Inv(s) && Enabled(s, t)
    ensures ChansOk(Next(s, t).job)
  {
    match t
    case SendDone(ch) => if !SendPanics(s.job, ch) { SendKeeps(s.job, ch, s.runner.event); }
    case SendTo(w, ch) => if !SendPanics(s.job, ch) { SendKeeps(s.job, ch, s.workers[w].event); }
    case CloseAllSubscribers => CloseAllKeeps(s.job);
    case Join => SubscribeKeeps(s.job);
    case Quit(ch) => UnsubscribeKeeps(s.job, ch);
    case Take(ch) => ReceiveKeeps(s.job, ch);
    case _ =>
  }

  lemma StepKeepsInv(s: State, t: Step)
    requires Inv(s) && Enabled(s, t)
    ensures Inv(Next(s, t))
  {
    StepKeepsStatus(s, t);
    StepKeepsNodes(s, t);
    StepKeepsRunner(s, t);
    StepKeepsTo(s, t);
    StepKeepsChans(s, t);
  }

  lemma {:induction false} RunKeepsInv(s: State, steps: seq<Step>)
    requires Inv(s) && IsRun(s, steps)
    ensures Inv(After(s, steps))
    decreases |steps|
  {
    if steps != [] {
      StepKeepsInv(s, steps[0]);
      RunKeepsInv(Next(s, steps[0]), steps[1..]);
    }
  }

  // ----- Safety -----

  /** When every worker has left, every node has been counted. */
  lemma AllCounted(s: State)
    requires Inv(s) && s.next == |s.nodes|
    requires forall w :: 0 <= w < |s.workers| ==> s.workers[w].Exited?
    ensures s.job.status.done == s.job.status.total
    ensures forall i :: 0 <= i < |s.nodes| ==> s.nodes[i].Counted?
  {
    assert forall i :: 0 <= i < |s.nodes| ==> s.nodes[i].Counted?;
    CountOfAll(s.nodes);
  }

  ghost predicate Safe(s: State) {
    var st := s.job.status;
    && st.done == st.success + st.failed <= st.total
    && (st.phase == Done ==> st.done == st.total)
    // a node is with at most one worker
    && (forall v, w ::
          0 <= v < |s.workers| && 0 <= w < |s.workers| && HasNode(s.workers[v]) && HasNode(s.workers[w]) &&
          s.workers[v].node == s.workers[w].node
          ==> v == w)
    && ChansOk(s.job)
  }

  /** Main result: whatever the probes, the subscribers and the interleaving, every reachable state is safe. */
  lemma EveryRunIsSafe(total: nat, concurrency: nat, steps: seq<Step>)
    requires IsRun(Start(total, concurrency), steps)
    ensures Safe(After(Start(total, concurrency), steps))
  {
    StartIsOk(total, concurrency);
    RunKeepsInv(Start(total, concurrency), steps);
    var s := After(Start(total, concurrency), steps);
    CountOfAll(s.nodes);
    if s.job.status.phase == Done {
      AllCounted(s);
    }
  }

  /** s' is no earlier than s: its counters are no smaller, and done stays done. */
  predicate Later(s: Status, s': Status) {
    && s.total == s'.total && s.done <= s'.done && s.success <= s'.success && s.failed <= s'.failed
    && (s.phase == Done ==> s' == s)
  }

  lemma StepMovesOn(s: State, t: Step)
    requires Inv(s) && Enabled(s, t)
    ensures Later(s.job.status, Next(s, t).job.status)
  {
  }

  /** The counters never decrease, and nothing changes any more once the status is done. */
  lemma {:induction false} StatusIsMonotone(s: State, steps: seq<Step>)
    requires Inv(s) && IsRun(s, steps)
    ensures Later(s.job.status, After(s, steps).job.status)
    decreases |steps|
  {
    if steps != [] {
      StepMovesOn(s, steps[0]);
      StepKeepsInv(s, steps[0]);
      StatusIsMonotone(Next(s, steps[0]), steps[1..]);
    }
  }

  function Stage(n: Node): nat {
    match n
    case Pending => 0
    case Taken(_) => 1
    case Probed(_, _, _) => 2
    case Counted(_, _, _) => 3
  }

  /** n' is n later on: no less far, and once taken, with the same worker and, once probed, the same outcome. */
  predicate SameNodeLater(n: Node, n': Node) {
    && Stage(n) <= Stage(n')
    && (!n.Pending? ==> n'.w == n.w)
    && (Stage(n) >= 2 ==> n'.err == n.err && n'.row == n.row)
  }

  lemma StepKeepsTakers(s: State, t: Step, i: nat)
    requires Inv(s) && Enabled(s, t) && i < |s.nodes|
    ensures |Next(s, t).nodes| == |s.nodes| && SameNodeLater(s.nodes[i], Next(s, t).nodes[i])
  {
  }

  /** Main result: a node that a worker has taken stays with that worker and is never probed or counted anew. */
  lemma {:induction false} NodesStayWithTheirWorker(s: State, steps: seq<Step>, i: nat)
    requires Inv(s) && IsRun(s, steps) && i < |s.nodes|
    ensures |After(s, steps).nodes| == |s.nodes| && SameNodeLater(s.nodes[i], After(s, steps).nodes[i])
    decreases |steps|
  {
    if steps != [] {
      StepKeepsTakers(s, steps[0], i);
      StepKeepsInv(s, steps[0]);
      NodesStayWithTheirWorker(Next(s, steps[0]), steps[1..], i);
    }
  }

  // ----- Check rows -----

  /** The rows have the success flags of the probes and the counters go by error texts: that the two agree is the
      coherence of every probe. How many check rows with this success flag the job has written. */
  function RowsOf(nodes: seq<Node>, success: bool): nat {
    if nodes == [] then 0
    else
      var n := nodes[|nodes| - 1];
      RowsOf(nodes[..|nodes| - 1], success) + if (n.Probed? || n.Counted?) && n.row == RowFor(success) then 1 else 0
  }

  /** How many nodes were counted as failed although a successful check row was written. */
  function Belied(nodes: seq<Node>): nat {
    if nodes == [] then 0
    else
      var n := nodes[|nodes| - 1];
      Belied(nodes[..|nodes| - 1]) + if n.Counted? && n.err != "" && n.row == Passed then 1 else 0
  }

  /** How many nodes were counted without a check row. */
  function Rowless(nodes: seq<Node>): nat {
    if nodes == [] then 0
    else
      var n := nodes[|nodes| - 1];
      Rowless(nodes[..|nodes| - 1]) + if n.Counted? && n.row == Unwritten then 1 else 0
  }

  /** A node counts as a success only with a successful check row. */
  ghost predicate RowsHonest(s: State) {
    forall i :: 0 <= i < |s.nodes| && (s.nodes[i].Probed? || s.nodes[i].Counted?) && s.nodes[i].err == "" ==>
        s.nodes[i].row == Passed
  }

  lemma StepKeepsRows(s: State, t: Step)
    requires RowsHonest(s) && Enabled(s, t)
    ensures RowsHonest(Next(s, t))
  {
    if t.Probe? {
      P.EveryProbeIsCoherent(t.result);
    }
  }

  lemma {:induction false} CountersAndRows(nodes: seq<Node>)
    requires forall i :: 0 <= i < |nodes| ==> nodes[i].Counted? && (nodes[i].err == "" ==> nodes[i].row == Passed)
    ensures RowsOf(nodes, true) == CountOf(nodes, true) + Belied(nodes)
    ensures CountOf(nodes, false) == RowsOf(nodes, false) + Belied(nodes) + Rowless(nodes)
  {
    if nodes != [] {
      var n := nodes[|nodes| - 1];
      assert n.Counted? && (n.err == "" ==> n.row == Passed);
      CountersAndRows(nodes[..|nodes| - 1]);
    }
  }

  lemma {:induction false} RunKeepsRows(s: State, steps: seq<Step>)
    requires RowsHonest(s) && IsRun(s, steps)
    ensures RowsHonest(After(s, steps))
    decreases |steps|
  {
    if steps != [] {
      StepKeepsRows(s, steps[0]);
      RunKeepsRows(Next(s, steps[0]), steps[1..]);
    }
  }

  ghost predicate Faultless(s: State) {
    forall i :: 0 <= i < |s.nodes| && (s.nodes[i].Probed? || s.nodes[i].Counted?) ==>
        s.nodes[i].row == RowFor(s.nodes[i].err == "")
  }

  lemma {:induction false} RunKeepsFaultless(s: State, steps: seq<Step>)
    requires Faultless(s) && IsRun(s, steps)
    requires forall t :: t in steps && t.Probe? ==> t.fault.NoFault?
    ensures Faultless(After(s, steps))
    decreases |steps|
  {
    if steps != [] {
      if steps[0].Probe? {
        P.EveryProbeIsCoherent(steps[0].result);
      }
      assert Faultless(Next(s, steps[0]));
      RunKeepsFaultless(Next(s, steps[0]), steps[1..]);
    }
  }

  lemma {:induction false} FaultlessCounts(nodes: seq<Node>)
    requires forall i :: 0 <= i < |nodes| ==> nodes[i].Counted? && nodes[i].row == RowFor(nodes[i].err == "")
    ensures Belied(nodes) == 0 && Rowless(nodes) == 0
  {
    if nodes != [] {
      FaultlessCounts(nodes[..|nodes| - 1]);
    }
  }

  /** Main result: a finished job's counters against the check rows it wrote. Each node whose row could
      not be written, or whose node row could not be updated, is a failure; without such faults the
      counters are exactly the numbers of successful and failed rows. */
  lemma FinishedJobCountsItsRows(total: nat, concurrency: nat, steps: seq<Step>)
    requires IsRun(Start(total, concurrency), steps)
    requires After(Start(total, concurrency), steps).job.status.phase == Done
    ensures var s := After(Start(total, concurrency), steps);
            && s.job.status.success == RowsOf(s.nodes, true) - Belied(s.nodes)
            && s.job.status.failed == RowsOf(s.nodes, false) + Belied(s.nodes) + Rowless(s.nodes)
            && ((forall t :: t in steps && t.Probe? ==> t.fault.NoFault?) ==>
                  s.job.status.success == RowsOf(s.nodes, true) && s.job.status.failed == RowsOf(s.nodes, false))
  {
    var start := Start(total, concurrency);
    var s := After(start, steps);
    StartIsOk(total, concurrency);
    RunKeepsInv(start, steps);
    RunKeepsRows(start, steps);
    AllCounted(s);
    CountersAndRows(s.nodes);
    if forall t :: t in steps && t.Probe? ==> t.fault.NoFault? {
      RunKeepsFaultless(start, steps);
      FaultlessCounts(s.nodes);
    }
  }

  // ----- Crashes -----

  /** ch is among the subscribers that some sender copied and has not sent to yet. */
  ghost predicate Owed(s: State, ch: nat) {
    (s.runner.SendingDone? && ch in s.runner.to) ||
    exists w :: 0 <= w < |s.workers| && IsSending(s.workers[w]) && ch in s.workers[w].to
  }

  ghost predicate NothingLost(s: State) {
    && !s.crashed
    && forall ch :: Owed(s, ch) ==> ch in s.job.subscribers
  }

  /** Nobody cancels a subscription that a sender has copied. */
  ghost predicate Polite(s: State, t: Step) {
    t.Quit? ==> !Owed(s, t.ch)
  }

  lemma PoliteStepsLoseNothing(s: State, t: Step)
    requires Inv(s) && NothingLost(s) && Enabled(s, t) && Polite(s, t)
    ensures NothingLost(Next(s, t))
  {
    var s' := Next(s, t);
    assert t.CloseAllSubscribers? ==> forall w :: 0 <= w < |s'.workers| ==> s'.workers[w].Exited?;
    forall ch | Owed(s', ch) ensures ch in s'.job.subscribers {
      if !(s'.runner.SendingDone? && ch in s'.runner.to) {
        var w :| 0 <= w < |s'.workers| && IsSending(s'.workers[w]) && ch in s'.workers[w].to;
        assert w < |s.workers|;
      }
    }
  }

  ghost predicate IsPoliteRun(s: State, steps: seq<Step>)
    requires IsRun(s, steps)
    decreases |steps|
  {
    steps == [] || (Polite(s, steps[0]) && IsPoliteRun(Next(s, steps[0]), steps[1..]))
  }

  /** Once the runner has closed the subscribers' channels, the job has nothing left to send, or to do. */
  lemma {:induction false} OverIsQuiet(s: State, steps: seq<Step>)
    requires Inv(s) && s.runner.Over? && IsRun(s, steps)
    ensures forall t :: t in steps ==> IsOutside(t)
    decreases |steps|
  {
    if steps != [] {
      StepKeepsInv(s, steps[0]);
      OverIsQuiet(Next(s, steps[0]), steps[1..]);
    }
  }

  /** Main result: in every run, polite or not, nothing is sent after the runner has closed all subscribers, so
      neither it nor a worker ever sends on a channel that it closed itself. */
  lemma {:induction false} NothingIsSentAfterClosing(total: nat, concurrency: nat, before: seq<Step>, after: seq<Step>)
    requires IsRun(Start(total, concurrency), before + [CloseAllSubscribers] + after)
    ensures forall t :: t in after ==> IsOutside(t)
  {
    var start := Start(total, concurrency);
    var first := before + [CloseAllSubscribers];
    StartIsOk(total, concurrency);
    RunSplits(start, first, after);
    RunSplits(start, before, [CloseAllSubscribers]);
    RunKeepsInv(start, first);
    assert After(start, first).runner.Over?;
    OverIsQuiet(After(start, first), after);
  }

  lemma {:induction false} RunSplits(s: State, first: seq<Step>, second: seq<Step>)
    requires IsRun(s, first + second)
    ensures IsRun(s, first) && IsRun(After(s, first), second)
    ensures After(s, first + second) == After(After(s, first), second)
    decreases |first|
  {
    if first == [] {
      assert first + second == second;
    } else {
      assert (first + second)[0] == first[0] && (first + second)[1..] == first[1..] + second;
      RunSplits(Next(s, first[0]), first[1..], second);
    }
  }

  /** Main result: if no subscriber quits between the copy and the send of an update, nothing is ever sent on a
      closed channel. */
  lemma {:induction false} PoliteRunsNeverCrash(s: State, steps: seq<Step>)
    requires Inv(s) && NothingLost(s) && IsRun(s, steps) && IsPoliteRun(s, steps)
    ensures NothingLost(After(s, steps))
    decreases |steps|
  {
    if steps != [] {
      PoliteStepsLoseNothing(s, steps[0]);
      StepKeepsInv(s, steps[0]);
      PoliteRunsNeverCrash(Next(s, steps[0]), steps[1..]);
    }
  }

  /** And conversely: when a subscriber quits while it is owed an event, a send can crash the process in
      the very next step. So quitting is harmless exactly when nothing is owed. */
  lemma QuittingCrashesIffOwed(s: State, ch: nat)
    requires Inv(s) && NothingLost(s) && ch in s.job.subscribers
    ensures var s' := Next(s, Quit(ch));
            (exists t :: Enabled(s', t) && Next(s', t).crashed) <==> Owed(s, ch)
  {
    var s' := Next(s, Quit(ch));
    if Owed(s, ch) {
      if s.runner.SendingDone? && ch in s.runner.to {
        assert Enabled(s', SendDone(ch)) && Next(s', SendDone(ch)).crashed;
      } else {
        var w :| 0 <= w < |s.workers| && IsSending(s.workers[w]) && ch in s.workers[w].to;
        assert Enabled(s', SendTo(w, ch)) && Next(s', SendTo(w, ch)).crashed;
      }
    } else {
      StepKeepsInv(s, Quit(ch));
      PoliteStepsLoseNothing(s, Quit(ch));
      forall t | Enabled(s', t) ensures !Next(s', t).crashed {
        if t.SendDone? {
          assert Owed(s', t.ch);
        } else if t.SendTo? {
          assert Owed(s', t.ch);
        }
      }
    }
  }

  // ----- Progress -----

  function WorkerRank(x: Worker): nat {
    match x
    case Idle => 1
    case SendingProgress(_, _) => 2
    case Touching => 3
    case SendingResult(_, _) => 4
    case Reporting(_) => 5
    case Probing(_) => 6
    case Exited => 0
  }

  function RunnerRank(r: Runner): nat {
    match r
    case Feeding => 5
    case Waiting => 4
    case Finishing => 3
    case SendingDone(_, _) => 2
    case ClosingAll => 1
    case Over => 0
  }

  function WorkersRank(xs: seq<Worker>): nat {
    if xs == [] then 0 else WorkersRank(xs[..|xs| - 1]) + WorkerRank(xs[|xs| - 1])
  }

  /** The work left, not counting single sends. */
  function Rank(s: State): int {
    6 * (|s.nodes| - s.next) + WorkersRank(s.workers) + RunnerRank(s.runner)
  }

  /** Whom a worker still has to send to. */
  function Copied(x: Worker): set<nat> {
    if IsSending(x) then x.to else {}
  }

  function WorkersUnsent(xs: seq<Worker>): nat {
    if xs == [] then 0 else WorkersUnsent(xs[..|xs| - 1]) + |Copied(xs[|xs| - 1])|
  }

  function RunnerUnsent(r: Runner): nat {
    if r.SendingDone? then |r.to| else 0
  }

  /** The single sends that are left of the updates made so far. */
  function Unsent(s: State): nat {
    WorkersUnsent(s.workers) + RunnerUnsent(s.runner)
  }

  /** The measure that every step of the job lowers while there are at most n channels: a move makes at most n
      sends necessary. */
  function Measure(s: State, n: nat): int {
    Rank(s) * (n + 1) + Unsent(s)
  }

  lemma {:induction false} WorkersAt(xs: seq<Worker>, w: nat, x: Worker)
    requires w < |xs|
    ensures WorkersRank(xs[w := x]) == WorkersRank(xs) - WorkerRank(xs[w]) + WorkerRank(x)
    ensures WorkersUnsent(xs[w := x]) == WorkersUnsent(xs) - |Copied(xs[w])| + |Copied(x)|
  {
    var n := |xs| - 1;
    if w < n {
      WorkersAt(xs[..n], w, x);
      assert xs[w := x][..n] == xs[..n][w := x];
    } else {
      assert xs[w := x][..n] == xs[..n];
    }
  }

  predicate IsSend(t: Step) {
    t.SendTo? || t.SendDone?
  }

  /** s' is s after a move, which lowers the rank and may copy the subscribers once. */
  predicate Moved(s: State, s': State) {
    Rank(s') < Rank(s) && Unsent(s') <= Unsent(s) + |s.job.subscribers|
  }

  /** A move of one worker lowers its rank; what it has to send next is nothing, or the subscribers. */
  lemma {:induction false} WorkerMoves(s: State, w: nat, x: Worker, s': State)
    requires w < |s.workers| && s'.workers == s.workers[w := x] && s'.runner == s.runner
    requires |s'.nodes| == |s.nodes| && s'.next == s.next
    requires WorkerRank(x) < WorkerRank(s.workers[w])
    requires |Copied(x)| <= |s.job.subscribers|
    ensures Moved(s, s')
  {
    WorkersAt(s.workers, w, x);
  }

  /** Feeding a node to a worker costs more than the worker will need for it. */
  lemma {:induction false} FeedingMoves(s: State, w: nat)
    requires Inv(s) && Enabled(s, Feed(w))
    ensures Moved(s, Next(s, Feed(w)))
  {
    WorkersAt(s.workers, w, Probing(s.next));
  }

  lemma {:induction false} RunnerMoves(s: State, s': State)
    requires s'.workers == s.workers && |s'.nodes| == |s.nodes| && s'.next == s.next
    requires RunnerRank(s'.runner) < RunnerRank(s.runner)
    requires RunnerUnsent(s'.runner) <= |s.job.subscribers|
    ensures Moved(s, s')
  {
  }

  lemma {:induction false} WorkerStepMoves(s: State, t: Step)
    requires Inv(s) && Enabled(s, t) && (t.Leave? || t.Probe? || t.Report? || t.Touch? || t.AllSent?)
    ensures Moved(s, Next(s, t))
  {
    WorkerMoves(s, t.w, Next(s, t).workers[t.w], Next(s, t));
  }

  lemma {:induction false} RunnerStepMoves(s: State, t: Step)
    requires Enabled(s, t) && (t.CloseJobs? || t.WaitOver? || t.Finish? || t.DoneSent? || t.CloseAllSubscribers?)
    ensures Moved(s, Next(s, t))
  {
    RunnerMoves(s, Next(s, t));
  }

  lemma {:induction false} OwnStepMoves(s: State, t: Step)
    requires Inv(s) && Enabled(s, t) && !IsOutside(t) && !IsSend(t)
    ensures Moved(s, Next(s, t))
  {
    if t.Feed? {
      FeedingMoves(s, t.w);
    } else if t.Leave? || t.Probe? || t.Report? || t.Touch? || t.AllSent? {
      WorkerStepMoves(s, t);
    } else {
      RunnerStepMoves(s, t);
    }
  }

  /** A send that does not crash takes one of the sends that are left. */
  lemma {:induction false} SendShortens(s: State, t: Step)
    requires Inv(s) && Enabled(s, t) && IsSend(t)
    ensures Unsent(s) > 0
    ensures !Next(s, t).crashed ==> Rank(Next(s, t)) == Rank(s) && Unsent(Next(s, t)) == Unsent(s) - 1
  {
    if t.SendTo? {
      var x := s.workers[t.w];
      WorkersAt(s.workers, t.w, x.(to := x.to - {t.ch}));
      assert |x.to - {t.ch}| == |x.to| - 1;
      WorkersAt(s.workers, t.w, Exited);
    } else {
      assert |s.runner.to - {t.ch}| == |s.runner.to| - 1;
    }
  }

  /** No step of the outside gives the job more to do. */
  lemma {:induction false} OutsideIsNoWork(s: State, t: Step)
    requires Enabled(s, t) && IsOutside(t)
    ensures Rank(Next(s, t)) == Rank(s) && Unsent(Next(s, t)) == Unsent(s)
  {
  }

  lemma {:induction false} SubscribersAreChannels(j: Job)
    requires ChansOk(j)
    ensures |j.subscribers| <= |j.chans|
  {
    BoundedSet(j.subscribers, |j.chans|);
  }

  lemma {:induction false} BoundedSet(xs: set<nat>, n: nat)
    requires forall x :: x in xs ==> x < n
    ensures |xs| <= n
  {
    if n == 0 {
      assert forall x :: x !in xs;
    } else {
      BoundedSet(xs - {n - 1}, n - 1);
    }
  }

  lemma ScaleUp(a: int, b: int, k: nat)
    requires a <= b
    ensures a * k <= b * k
  {
    assert (b - a) * k >= 0;
  }

  lemma RankBeatsSends(rank: int, rank': int, n: nat, unsent: int, unsent': int)
    requires rank' < rank && unsent' <= unsent + n
    ensures rank' * (n + 1) + unsent' < rank * (n + 1) + unsent
  {
    ScaleUp(rank', rank - 1, n + 1);
    assert (rank - 1) * (n + 1) == rank * (n + 1) - (n + 1);
  }

  /** Every step of the job lowers the measure; no step of the outside changes it. */
  lemma {:induction false} StepsUseMeasure(s: State, t: Step, n: nat)
    requires Inv(s) && Enabled(s, t) && !Next(s, t).crashed && |s.job.chans| <= n
    ensures IsOutside(t) ==> Measure(Next(s, t), n) == Measure(s, n)
    ensures !IsOutside(t) ==> Measure(Next(s, t), n) < Measure(s, n)
  {
    var s' := Next(s, t);
    if IsOutside(t) {
      OutsideIsNoWork(s, t);
    } else if IsSend(t) {
      SendShortens(s, t);
    } else {
      OwnStepMoves(s, t);
      SubscribersAreChannels(s.job);
      RankBeatsSends(Rank(s), Rank(s'), n, Unsent(s), Unsent(s'));
    }
  }

  /** The next step of a worker that is not blocked on the channel. */
  lemma BusyWorkerGoesOn(s: State, w: nat) returns (t: Step)
    requires Inv(s) && !s.crashed && w < |s.workers| && !s.workers[w].Idle? && !s.workers[w].Exited?
    ensures Enabled(s, t) && !IsOutside(t)
  {
    match s.workers[w]
    case Probing(_) =>
      var m := P.SomeFailure("");
      t := Probe(w, m, NoFault);
    case Reporting(_) => t := Report(w);
    case Touching => t := Touch(w);
    case SendingResult(_, to) => t := SendOn(s, w, to);
    case SendingProgress(_, to) => t := SendOn(s, w, to);
  }

  lemma SendOn(s: State, w: nat, to: set<nat>) returns (t: Step)
    requires Inv(s) && !s.crashed && w < |s.workers| && IsSending(s.workers[w]) && to == s.workers[w].to
    ensures Enabled(s, t) && !IsOutside(t)
  {
    if to == {} {
      t := AllSent(w);
    } else {
      var ch :| ch in to;
      t := SendTo(w, ch);
    }
  }

  /** Main result: no deadlock. Until the runner is over, some step of the job is enabled. */
  lemma SomeStepIsEnabled(s: State) returns (t: Step)
    requires Inv(s) && !s.crashed && !s.runner.Over?
    ensures Enabled(s, t) && !IsOutside(t)
  {
    match s.runner
    case Feeding =>
      if s.next == |s.nodes| {
        t := CloseJobs;
      } else if s.workers[0].Idle? {
        t := Feed(0);
      } else {
        t := BusyWorkerGoesOn(s, 0);
      }
    case Waiting =>
      if w :| 0 <= w < |s.workers| && !s.workers[w].Exited? {
        if s.workers[w].Idle? {
          t := Leave(w);
        } else {
          t := BusyWorkerGoesOn(s, w);
        }
      } else {
        t := WaitOver;
      }
    case Finishing => t := Finish;
    case SendingDone(_, to) =>
      if to == {} {
        t := DoneSent;
      } else {
        var ch :| ch in to;
        t := SendDone(ch);
      }
    case ClosingAll => t := CloseAllSubscribers;
  }

  /** How many steps of a run are steps of the job, sends included. */
  function OwnSteps(steps: seq<Step>): nat {
    if steps == [] then 0 else (if IsOutside(steps[0]) then 0 else 1) + OwnSteps(steps[1..])
  }

  function Joins(steps: seq<Step>): nat {
    if steps == [] then 0 else (if steps[0].Join? then 1 else 0) + Joins(steps[1..])
  }

  lemma MeasureIsNat(s: State, n: nat)
    requires Inv(s)
    ensures Measure(s, n) >= 0 && Rank(s) >= 0
  {
    assert Rank(s) >= 0;
    assert Rank(s) * (n + 1) >= 0;
  }

  lemma {:induction false} ChannelsGrowByJoins(s: State, t: Step)
    requires Enabled(s, t)
    ensures |Next(s, t).job.chans| == |s.job.chans| + if t.Join? then 1 else 0
  {
  }

  /** Main result: no livelock. Every step of the job, sends included, lowers a global measure, so with at most n
      channels in the whole run it takes at most Measure(s, n) steps, however the outside behaves. */
  lemma {:induction false} JobStepsAreBounded(s: State, steps: seq<Step>, n: nat)
    requires Inv(s) && IsRun(s, steps) && |s.job.chans| + Joins(steps) <= n
    ensures OwnSteps(steps) <= Measure(s, n)
    ensures !After(s, steps).crashed ==> OwnSteps(steps) + Measure(After(s, steps), n) <= Measure(s, n)
    decreases |steps|
  {
    MeasureIsNat(s, n);
    if steps != [] {
      var s' := Next(s, steps[0]);
      if s'.crashed {
        CrashIsLast(s, steps, n);
      } else {
        StepsUseMeasure(s, steps[0], n);
        StepKeepsInv(s, steps[0]);
        ChannelsGrowByJoins(s, steps[0]);
        JobStepsAreBounded(s', steps[1..], n);
      }
    }
  }

  lemma {:induction false} CrashIsLast(s: State, steps: seq<Step>, n: nat)
    requires Inv(s) && IsRun(s, steps) && steps != [] && Next(s, steps[0]).crashed
    ensures OwnSteps(steps) == 1 <= Measure(s, n) && After(s, steps).crashed
  {
    assert steps[1..] == [];
    SendShortens(s, steps[0]);
    MeasureIsNat(s, n);
    ScaleUp(0, Rank(s), n + 1);
  }

  function Workers(concurrency: nat): nat {
    if concurrency == 0 then 1 else concurrency
  }

  lemma {:induction false} StartRank(total: nat, concurrency: nat)
    ensures var s := Start(total, concurrency); Rank(s) <= 6 * total + Workers(concurrency) + 5 && Unsent(s) == 0
  {
    IdleWorkers(Start(total, concurrency).workers);
  }

  lemma MeasureBelow(s: State, n: nat, rank: int)
    requires Rank(s) <= rank && Unsent(s) == 0
    ensures Measure(s, n) <= rank * (n + 1)
  {
    ScaleUp(Rank(s), rank, n + 1);
  }

  /** Main result: a whole job takes at most (6 * nodes + workers + 5) * (joins + 1) steps of its own, and a run
      without any step of the outside is no longer than that. */
  lemma {:induction false} JobsEnd(total: nat, concurrency: nat, steps: seq<Step>)
    requires IsRun(Start(total, concurrency), steps)
    ensures OwnSteps(steps) <= (6 * total + Workers(concurrency) + 5) * (Joins(steps) + 1)
    ensures (forall t :: t in steps ==> !IsOutside(t)) ==> OwnSteps(steps) == |steps| && Joins(steps) == 0
  {
    StartIsOk(total, concurrency);
    JobStepsAreBounded(Start(total, concurrency), steps, Joins(steps));
    StartRank(total, concurrency);
    MeasureBelow(Start(total, concurrency), Joins(steps), 6 * total + Workers(concurrency) + 5);
    if forall t :: t in steps ==> !IsOutside(t) {
      AllOwn(steps);
    }
  }

  lemma {:induction false} IdleWorkers(xs: seq<Worker>)
    requires forall w :: 0 <= w < |xs| ==> xs[w].Idle?
    ensures WorkersRank(xs) == |xs| && WorkersUnsent(xs) == 0
  {
    if xs != [] {
      IdleWorkers(xs[..|xs| - 1]);
    }
  }

  lemma {:induction false} AllOwn(steps: seq<Step>)
    requires forall t :: t in steps ==> !IsOutside(t)
    ensures OwnSteps(steps) == |steps| && Joins(steps) == 0
  {
    if steps != [] {
      AllOwn(steps[1..]);
    }
  }

  /** Main result: a job that cannot go on, and has not crashed, is over: every node has been counted and
      the status is done. */
  lemma StuckMeansFinished(total: nat, concurrency: nat, steps: seq<Step>)
    requires IsRun(Start(total, concurrency), steps)
    requires var s := After(Start(total, concurrency), steps);
             !s.crashed && forall t :: Enabled(s, t) ==> IsOutside(t)
    ensures var s := After(Start(total, concurrency), steps);
            s.runner.Over? && s.job.status.phase == Done && s.job.status.done == total
  {
    var s := After(Start(total, concurrency), steps);
    StartIsOk(total, concurrency);
    RunKeepsInv(Start(total, concurrency), steps);
    if !s.runner.Over? {
      var t := SomeStepIsEnabled(s);
      assert false;
    }
    AllCounted(s);
    StatusIsMonotone(Start(total, concurrency), steps);
  }

  /** A job none of whose subscribers quits while it is owed an event never crashes. */
  lemma PoliteJobsNeverCrash(total: nat, concurrency: nat, steps: seq<Step>)
    requires IsRun(Start(total, concurrency), steps) && IsPoliteRun(Start(total, concurrency), steps)
    ensures !After(Start(total, concurrency), steps).crashed
  {
    StartIsOk(total, concurrency);
    PoliteRunsNeverCrash(Start(total, concurrency), steps);
  }

  lemma {:induction false} RunMore(s: State, steps: seq<Step>, t: Step)
    requires IsRun(s, steps) && Enabled(After(s, steps), t)
    ensures IsRun(s, steps + [t]) && After(s, steps + [t]) == Next(After(s, steps), t)
    decreases |steps|
  {
    if steps == [] {
      assert [] + [t] == [t];
    } else {
      assert (steps + [t])[0] == steps[0] && (steps + [t])[1..] == steps[1..] + [t];
      RunMore(Next(s, steps[0]), steps[1..], t);
    }
  }

  /** A subscriber can be owed the result of a node. */
  lemma OwedIsReachable() returns (steps: seq<Step>)
    ensures IsRun(Start(1, 1), steps)
    ensures var s := After(Start(1, 1), steps);
            !s.crashed && |s.job.chans| == 1 && 0 in s.job.subscribers &&
            |s.workers| == 1 && IsSending(s.workers[0]) && 0 in s.workers[0].to
  {
    var s := Start(1, 1);
    RunMore(s, [], Join);
    steps := [] + [Join];
    RunMore(s, steps, Feed(0));
    steps := steps + [Feed(0)];
    var m := P.SomeFailure("");
    RunMore(s, steps, Probe(0, m, NoFault));
    steps := steps + [Probe(0, m, NoFault)];
    RunMore(s, steps, Report(0));
    steps := steps + [Report(0)];
  }

  /** The impolite case does occur: a subscriber quits between the copy and the send of a node's result. */
  lemma CrashIsReachable() returns (steps: seq<Step>)
    ensures IsRun(Start(1, 1), steps) && After(Start(1, 1), steps).crashed
  {
    var s := Start(1, 1);
    steps := OwedIsReachable();
    StartIsOk(1, 1);
    RunKeepsInv(s, steps);
    RunMore(s, steps, Quit(0));
    steps := steps + [Quit(0)];
    RunMore(s, steps, SendTo(0, 0));
    steps := steps + [SendTo(0, 0)];
  }
}
