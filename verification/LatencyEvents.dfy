/** What a latency job tells its subscribers: every event is the status at the moment it was published, everybody who
    was subscribed then is offered it once, and a subscriber loses only what finds its channel full. */
module LatencyEvents {
  import opened Text
  import opened JobChannels
  import opened LatencyJob

  type Selection = Event -> bool

  function Times(events: seq<Event>, p: Selection): nat {
    if events == [] then 0 else Times(events[..|events| - 1], p) + if p(events[|events| - 1]) then 1 else 0
  }

  lemma TimesMore(events: seq<Event>, e: Event, p: Selection)
    ensures Times(events + [e], p) == Times(events, p) + if p(e) then 1 else 0
  {
    assert (events + [e])[..|events|] == events;
  }

  lemma {:induction false} TimesHas(events: seq<Event>, k: nat, p: Selection)
    requires k < |events| && p(events[k])
    ensures Times(events, p) > 0
  {
    if k < |events| - 1 {
      TimesHas(events[..|events| - 1], k, p);
    }
  }

  /** Whether a sender still owes the channel such an event. */
  function Owes(sending: bool, to: set<nat>, ch: nat, chosen: bool): nat {
    if sending && ch in to && chosen then 1 else 0
  }

  function OwedBy(x: Worker, ch: nat, p: Selection): nat {
    match x
    case SendingResult(e, to) => Owes(true, to, ch, p(e))
    case SendingProgress(e, to) => Owes(true, to, ch, p(e))
    case Idle => 0
    case Probing(_) => 0
    case Reporting(_) => 0
    case Touching => 0
    case Exited => 0
  }

  function OwedByAll(workers: seq<Worker>, ch: nat, p: Selection): nat {
    if workers == [] then 0
    else OwedByAll(workers[..|workers| - 1], ch, p) + OwedBy(workers[|workers| - 1], ch, p)
  }

  lemma {:induction false} OwedByAllAt(workers: seq<Worker>, w: nat, x: Worker, ch: nat, p: Selection)
    requires w < |workers|
    ensures OwedByAll(workers[w := x], ch, p) ==
            OwedByAll(workers, ch, p) - OwedBy(workers[w], ch, p) + OwedBy(x, ch, p)
  {
    var n := |workers| - 1;
    if w < n {
      assert workers[w := x][..n] == workers[..n][w := x];
      OwedByAllAt(workers[..n], w, x, ch, p);
    } else {
      assert workers[w := x][..n] == workers[..n];
    }
  }

  lemma {:induction false} NobodyOwes(workers: seq<Worker>, ch: nat, p: Selection)
    requires forall w :: 0 <= w < |workers| ==> !IsSending(workers[w])
    ensures OwedByAll(workers, ch, p) == 0
  {
    if workers != [] {
      NobodyOwes(workers[..|workers| - 1], ch, p);
    }
  }

  /** The events that were published for the channel and not offered to it yet. */
  function Outstanding(s: State, ch: nat, p: Selection): nat {
    OwedByAll(s.workers, ch, p) +
    if s.runner.SendingDone? then Owes(true, s.runner.to, ch, p(s.runner.event)) else 0
  }

  function OfferedTimes(j: Job, ch: nat, p: Selection): nat {
    if ch < |j.chans| then Times(j.chans[ch].offered, p) else 0
  }

  /** What a step publishes: the result of a node, progress or the end, with the status as the step leaves it. */
  ghost function Publishes(s: State, t: Step): Option<Event>
    requires Enabled(s, t)
  {
    match t
    case Report(w) => Some(Event(NodeResult, Next(s, t).job.status, Some(s.workers[w].node)))
    case Touch(_) => Some(Event(Progress, Next(s, t).job.status, None))
    case Finish => Some(Event(Finished, Next(s, t).job.status, None))
    case _ => None
  }

  /** The step publishes such an event while the channel is subscribed. */
  ghost predicate PublishesTo(s: State, t: Step, ch: nat, p: Selection)
    requires Enabled(s, t)
  {
    Publishes(s, t).Some? && p(Publishes(s, t).value) && ch in s.job.subscribers
  }

  /** How many such events are published in a run while the channel is subscribed. */
  ghost function Published(s: State, steps: seq<Step>, ch: nat, p: Selection): nat
    requires IsRun(s, steps)
    decreases |steps|
  {
    if steps == [] then 0
    else (if PublishesTo(s, steps[0], ch, p) then 1 else 0) + Published(Next(s, steps[0]), steps[1..], ch, p)
  }

  lemma {:induction false} OfferMore(j: Job, to: nat, e: Event, ch: nat, p: Selection)
    requires to < |j.chans|
    ensures OfferedTimes(Send(j, to, e), ch, p) == OfferedTimes(j, ch, p) + if ch == to && p(e) then 1 else 0
  {
    TimesMore(j.chans[to].offered, e, p);
  }

  lemma {:induction false} SendConserves(s: State, t: Step, ch: nat, p: Selection)
    requires Inv(s) && Enabled(s, t) && (t.SendTo? || t.SendDone?)
    ensures var s' := Next(s, t);
            OfferedTimes(s'.job, ch, p) + Outstanding(s', ch, p) == OfferedTimes(s.job, ch, p) + Outstanding(s, ch, p)
  {
    var s' := Next(s, t);
    if !s'.crashed {
      if t.SendTo? {
        OfferMore(s.job, t.ch, s.workers[t.w].event, ch, p);
        OwedByAllAt(s.workers, t.w, s'.workers[t.w], ch, p);
      } else {
        OfferMore(s.job, t.ch, s.runner.event, ch, p);
      }
    }
  }

  lemma {:induction false} WorkConserves(s: State, t: Step, ch: nat, p: Selection)
    requires Inv(s) && Enabled(s, t)
    requires t.Feed? || t.Leave? || t.Probe? || t.Report? || t.Touch? || t.AllSent?
    ensures var s' := Next(s, t);
            OfferedTimes(s'.job, ch, p) + Outstanding(s', ch, p) ==
            OfferedTimes(s.job, ch, p) + Outstanding(s, ch, p) + if PublishesTo(s, t, ch, p) then 1 else 0
  {
    OwedByAllAt(s.workers, t.w, Next(s, t).workers[t.w], ch, p);
  }

  lemma {:induction false} ChannelsConserve(s: State, t: Step, ch: nat, p: Selection)
    requires Inv(s) && Enabled(s, t) && (IsOutside(t) || t.CloseAllSubscribers?)
    ensures var s' := Next(s, t);
            OfferedTimes(s'.job, ch, p) + Outstanding(s', ch, p) == OfferedTimes(s.job, ch, p) + Outstanding(s, ch, p)
  {
  }

  /** An event that is published is owed to every subscriber, one that is sent is offered instead. */
  lemma {:induction false} StepConserves(s: State, t: Step, ch: nat, p: Selection)
    requires Inv(s) && Enabled(s, t)
    ensures var s' := Next(s, t);
            OfferedTimes(s'.job, ch, p) + Outstanding(s', ch, p) ==
            OfferedTimes(s.job, ch, p) + Outstanding(s, ch, p) + if PublishesTo(s, t, ch, p) then 1 else 0
  {
    if t.SendTo? || t.SendDone? {
      SendConserves(s, t, ch, p);
    } else if t.Feed? || t.Leave? || t.Probe? || t.Report? || t.Touch? || t.AllSent? {
      WorkConserves(s, t, ch, p);
    } else if IsOutside(t) || t.CloseAllSubscribers? {
      ChannelsConserve(s, t, ch, p);
    }
  }

  lemma {:induction false} RunConserves(s: State, steps: seq<Step>, ch: nat, p: Selection)
    requires Inv(s) && IsRun(s, steps)
    ensures var s' := After(s, steps);
            OfferedTimes(s'.job, ch, p) + Outstanding(s', ch, p) ==
            OfferedTimes(s.job, ch, p) + Outstanding(s, ch, p) + Published(s, steps, ch, p)
    decreases |steps|
  {
    if steps != [] {
      StepConserves(s, steps[0], ch, p);
      StepKeepsInv(s, steps[0]);
      RunConserves(Next(s, steps[0]), steps[1..], ch, p);
    }
  }

  lemma {:induction false} NothingAtStart(total: nat, concurrency: nat, ch: nat, p: Selection)
    ensures var s := Start(total, concurrency);
            Inv(s) && OfferedTimes(s.job, ch, p) == 0 && Outstanding(s, ch, p) == 0
  {
    StartIsOk(total, concurrency);
    NobodyOwes(Start(total, concurrency).workers, ch, p);
  }

  /** Main result: in every run, what was published while a channel was subscribed has been offered to it, each event
      once, or is still to be sent to it by the one who published it; when the job is over, all has been offered.
      This holds for all events and for every selection of them. */
  lemma {:induction false} SubscribersAreOfferedAll(
    total: nat, concurrency: nat, steps: seq<Step>, ch: nat, p: Selection)
    requires IsRun(Start(total, concurrency), steps)
    ensures var s := After(Start(total, concurrency), steps);
            var published := Published(Start(total, concurrency), steps, ch, p);
            && OfferedTimes(s.job, ch, p) + Outstanding(s, ch, p) == published
            && (s.runner.Over? ==> OfferedTimes(s.job, ch, p) == published)
  {
    var start := Start(total, concurrency);
    NothingAtStart(total, concurrency, ch, p);
    RunConserves(start, steps, ch, p);
    RunKeepsInv(start, steps);
    var s := After(start, steps);
    if s.runner.Over? {
      NobodyOwes(s.workers, ch, p);
    }
  }

  // ----- Events are true -----

  /** Some step of a run published the event while the channel was subscribed. */
  lemma {:induction false} WhoPublished(s: State, steps: seq<Step>, ch: nat, p: Selection) returns (i: nat)
    requires IsRun(s, steps) && Published(s, steps, ch, p) > 0
    ensures i < |steps| && IsRun(s, steps[..i])
    ensures Enabled(After(s, steps[..i]), steps[i]) && PublishesTo(After(s, steps[..i]), steps[i], ch, p)
    ensures IsRun(Next(After(s, steps[..i]), steps[i]), steps[i + 1..])
    ensures After(Next(After(s, steps[..i]), steps[i]), steps[i + 1..]) == After(s, steps)
    decreases |steps|
  {
    if PublishesTo(s, steps[0], ch, p) {
      i := 0;
      assert steps[..0] == [];
    } else {
      var j := WhoPublished(Next(s, steps[0]), steps[1..], ch, p);
      i := j + 1;
      assert steps[..i][0] == steps[0] && steps[..i][1..] == steps[1..][..j];
      assert steps[1..][j + 1..] == steps[i + 1..];
    }
  }

  /** What an event says of the state q before the step that published it, the state q' after, and the last one. */
  ghost predicate IsTrue(e: Event, q: State, q': State, last: State) {
    && e.job == q'.job.status && Later(e.job, last.job.status)
    && match e.kind
       case NodeResult =>
         && e.node.Some? && e.node.value < |q.nodes| == |q'.nodes|
         && !q.nodes[e.node.value].Counted? && q'.nodes[e.node.value].Counted? && e.job.done == q.job.status.done + 1
       case Progress => e.node.None? && q'.job.status == q.job.status
       case Finished => e.node.None? && e.job.phase == Done && e.job.done == e.job.total && e.job == last.job.status
  }

  lemma {:induction false} PublishedIsTrue(q: State, t: Step, rest: seq<Step>)
    requires Inv(q) && Enabled(q, t) && Publishes(q, t).Some? && IsRun(Next(q, t), rest)
    ensures IsTrue(Publishes(q, t).value, q, Next(q, t), After(Next(q, t), rest))
  {
    StepKeepsInv(q, t);
    StatusIsMonotone(Next(q, t), rest);
    if t.Finish? {
      AllCounted(Next(q, t));
    }
  }

  /** Main result: every event that a subscriber was offered is the status of the job at a moment when the channel was
      subscribed, never later than the current one: a result follows the count of its node, and the end says that all
      nodes are counted and is the final status. */
  lemma {:induction false} EventsAreTrue(
    total: nat, concurrency: nat, steps: seq<Step>, ch: nat, k: nat)
    returns (i: nat)
    requires IsRun(Start(total, concurrency), steps)
    requires var j := After(Start(total, concurrency), steps).job; ch < |j.chans| && k < |j.chans[ch].offered|
    ensures var start := Start(total, concurrency);
            && i < |steps| && IsRun(start, steps[..i]) && Enabled(After(start, steps[..i]), steps[i])
            && var q := After(start, steps[..i]);
               ch in q.job.subscribers &&
               IsTrue(After(start, steps).job.chans[ch].offered[k], q, Next(q, steps[i]), After(start, steps))
  {
    var start := Start(total, concurrency);
    var e := After(start, steps).job.chans[ch].offered[k];
    var p := (x: Event) => x == e;
    SubscribersAreOfferedAll(total, concurrency, steps, ch, p);
    TimesHas(After(start, steps).job.chans[ch].offered, k, p);
    i := WhoPublished(start, steps, ch, p);
    StartIsOk(total, concurrency);
    RunKeepsInv(start, steps[..i]);
    PublishedIsTrue(After(start, steps[..i]), steps[i], steps[i + 1..]);
  }

  function ResultsOf(i: nat): Selection {
    (e: Event) => e.kind.NodeResult? && e.node == Some(i)
  }

  lemma {:induction false} OneResult(s: State, steps: seq<Step>, ch: nat, i: nat)
    requires Inv(s) && IsRun(s, steps) && i < |s.nodes|
    ensures Published(s, steps, ch, ResultsOf(i)) + (if s.nodes[i].Counted? then 1 else 0) <= 1
    decreases |steps|
  {
    if steps != [] {
      StepKeepsInv(s, steps[0]);
      StepKeepsTakers(s, steps[0], i);
      OneResult(Next(s, steps[0]), steps[1..], ch, i);
    }
  }

  /** Main result: no subscriber is offered the result of a node twice. */
  lemma {:induction false} ResultsComeOnce(total: nat, concurrency: nat, steps: seq<Step>, ch: nat, i: nat)
    requires IsRun(Start(total, concurrency), steps) && i < total
    requires ch < |After(Start(total, concurrency), steps).job.chans|
    ensures Times(After(Start(total, concurrency), steps).job.chans[ch].offered, ResultsOf(i)) <= 1
  {
    StartIsOk(total, concurrency);
    SubscribersAreOfferedAll(total, concurrency, steps, ch, ResultsOf(i));
    OneResult(Start(total, concurrency), steps, ch, i);
  }

  // ----- What is lost -----

  /** A send to the channel that finds no room in it. */
  ghost predicate FindsFull(s: State, t: Step, ch: nat)
    requires Enabled(s, t)
  {
    (t.SendTo? || t.SendDone?) && t.ch == ch && !Next(s, t).crashed && |s.job.chans[ch].buffer| >= 32
  }

  ghost function Losses(s: State, steps: seq<Step>, ch: nat): nat
    requires IsRun(s, steps)
    decreases |steps|
  {
    if steps == [] then 0
    else (if FindsFull(s, steps[0], ch) then 1 else 0) + Losses(Next(s, steps[0]), steps[1..], ch)
  }

  /** How many of the events offered to a channel are neither received nor waiting in it. */
  function Missing(j: Job, ch: nat): int {
    if ch < |j.chans| then |j.chans[ch].offered| - |j.chans[ch].received| - |j.chans[ch].buffer| else 0
  }

  lemma {:induction false} StepLoses(s: State, t: Step, ch: nat)
    requires Inv(s) && Enabled(s, t)
    ensures Missing(Next(s, t).job, ch) == Missing(s.job, ch) + if FindsFull(s, t, ch) then 1 else 0
  {
  }

  lemma {:induction false} RunLoses(s: State, steps: seq<Step>, ch: nat)
    requires Inv(s) && IsRun(s, steps)
    ensures Missing(After(s, steps).job, ch) == Missing(s.job, ch) + Losses(s, steps, ch)
    decreases |steps|
  {
    if steps != [] {
      StepLoses(s, steps[0], ch);
      StepKeepsInv(s, steps[0]);
      RunLoses(Next(s, steps[0]), steps[1..], ch);
    }
  }

  lemma {:induction false} SubsequenceIsShorter<T>(a: seq<T>, b: seq<T>)
    requires Subsequence(a, b)
    ensures |a| <= |b| && (|a| == |b| ==> a == b)
  {
    if a != [] && b != [] {
      if a[|a| - 1] == b[|b| - 1] && Subsequence(a[..|a| - 1], b[..|b| - 1]) {
        SubsequenceIsShorter(a[..|a| - 1], b[..|b| - 1]);
        assert a == a[..|a| - 1] + [a[|a| - 1]] && b == b[..|b| - 1] + [b[|b| - 1]];
      } else {
        SubsequenceIsShorter(a, b[..|b| - 1]);
      }
    }
  }

  /** Main result: in every run, a subscriber lacks as many events as were sent to it while 32 were waiting; it has
      all of them, received or waiting and in order, exactly when that never happened. */
  lemma {:induction false} OnlyFullChannelsLose(total: nat, concurrency: nat, steps: seq<Step>, ch: nat)
    requires IsRun(Start(total, concurrency), steps)
    requires ch < |After(Start(total, concurrency), steps).job.chans|
    ensures var x := After(Start(total, concurrency), steps).job.chans[ch];
            var lost := Losses(Start(total, concurrency), steps, ch);
            && |x.offered| == |x.received| + |x.buffer| + lost
            && (x.received + x.buffer == x.offered <==> lost == 0)
  {
    var start := Start(total, concurrency);
    StartIsOk(total, concurrency);
    RunLoses(start, steps, ch);
    RunKeepsInv(start, steps);
    var x := After(start, steps).job.chans[ch];
    SubsequenceIsShorter(x.received + x.buffer, x.offered);
  }

  // ----- The end of the channels -----

  /** Main result: when the runner closes the subscribers, every channel there is has been closed exactly once. */
  lemma {:induction false} AllChannelsAreClosed(total: nat, concurrency: nat, before: seq<Step>)
    requires IsRun(Start(total, concurrency), before + [CloseAllSubscribers])
    ensures var s := After(Start(total, concurrency), before + [CloseAllSubscribers]);
            && s.runner.Over? && s.job.subscribers == {}
            && forall ch :: 0 <= ch < |s.job.chans| ==> s.job.chans[ch].closes == 1
  {
    var start := Start(total, concurrency);
    StartIsOk(total, concurrency);
    RunSplits(start, before, [CloseAllSubscribers]);
    RunKeepsInv(start, before);
    var s := After(start, before);
    assert ChansOk(s.job);
  }
}
