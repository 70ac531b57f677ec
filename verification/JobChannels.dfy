/** The shared part of a latency job: its status and its subscribers' channels
    (server/internal/service/subscription_latency_job.go). */
module JobChannels {
  import opened Text

  datatype Phase = Running | Done

  /** SubscriptionLatencyJobStatus without its times. */
  datatype Status = Status(phase: Phase, total: nat, done: nat, success: nat, failed: nat)

  datatype Kind = NodeResult | Progress | Finished

  datatype Event = Event(kind: Kind, job: Status, node: Option<nat>)

  const CAPACITY := 32

  /** A subscriber's channel, with all events that were ever offered to it and all that were received. */
  datatype Chan = Chan(offered: seq<Event>, buffer: seq<Event>, received: seq<Event>, closes: nat)

  const NEW_CHAN := Chan([], [], [], 0)

  /** Channels are numbered in the order of subscription. */
  datatype Job = Job(status: Status, subscribers: set<nat>, chans: seq<Chan>)

  function Subscribe(j: Job): Job {
    j.(chans := j.chans + [NEW_CHAN], subscribers := j.subscribers + {|j.chans|})
  }

  function Close(j: Job, ch: nat): Job
    requires ch < |j.chans|
  {
    j.(chans := j.chans[ch := j.chans[ch].(closes := j.chans[ch].closes + 1)], subscribers := j.subscribers - {ch})
  }

  function Unsubscribe(j: Job, ch: nat): Job
    requires ch < |j.chans|
  {
    if ch in j.subscribers then Close(j, ch) else j
  }

  /** Sending on a closed channel panics, even in a select with a default. */
  predicate SendPanics(j: Job, ch: nat)
    requires ch < |j.chans|
  {
    j.chans[ch].closes > 0
  }

  /** A send that gives up when the buffer is full. */
  function Send(j: Job, ch: nat, e: Event): Job
    requires ch < |j.chans|
  {
    j.(chans := j.chans[ch := Offered(j.chans[ch], e)])
  }

  function Offered(x: Chan, e: Event): Chan {
    x.(offered := x.offered + [e], buffer := if |x.buffer| < CAPACITY then x.buffer + [e] else x.buffer)
  }

  function Receive(j: Job, ch: nat): Job
    requires ch < |j.chans| && j.chans[ch].buffer != []
  {
    var x := j.chans[ch];
    j.(chans := j.chans[ch := x.(buffer := x.buffer[1..], received := x.received + [x.buffer[0]])])
  }

  function CloseEach(chans: seq<Chan>, subscribers: set<nat>): (r: seq<Chan>)
    ensures |r| == |chans|
  {
    seq(|chans|, ch requires 0 <= ch < |chans| =>
      if ch in subscribers then chans[ch].(closes := chans[ch].closes + 1) else chans[ch])
  }

  function CloseAll(j: Job): Job {
    j.(chans := CloseEach(j.chans, j.subscribers), subscribers := {})
  }

  // ----- What the channels keep -----

  /** a is b with some elements left out. */
  predicate Subsequence<T(==)>(a: seq<T>, b: seq<T>) {
    a == [] ||
    (b != [] && ((a[|a| - 1] == b[|b| - 1] && Subsequence(a[..|a| - 1], b[..|b| - 1])) || Subsequence(a, b[..|b| - 1])))
  }

  lemma SubsequenceMore<T>(a: seq<T>, b: seq<T>, e: T)
    requires Subsequence(a, b)
    ensures Subsequence(a, b + [e]) && Subsequence(a + [e], b + [e])
  {
    assert (b + [e])[..|b|] == b;
    assert (a + [e])[..|a|] == a;
  }

  /** A channel is closed at most once, and exactly when it has left the map; its buffer is bounded; what
      a subscriber receives is a subsequence of what was offered. */
  predicate ChanOk(x: Chan, subscribed: bool) {
    && x.closes <= 1
    && (x.closes == 0 <==> subscribed)
    && |x.buffer| <= CAPACITY
    && Subsequence(x.received + x.buffer, x.offered)
  }

  ghost predicate ChansOk(j: Job) {
    && (forall ch :: ch in j.subscribers ==> ch < |j.chans|)
    && (forall ch :: 0 <= ch < |j.chans| ==> ChanOk(j.chans[ch], ch in j.subscribers))
  }

  lemma SubscribeKeeps(j: Job)
    requires ChansOk(j)
    ensures ChansOk(Subscribe(j))
  {
  }

  lemma UnsubscribeKeeps(j: Job, ch: nat)
    requires ChansOk(j) && ch < |j.chans|
    ensures ChansOk(Unsubscribe(j, ch))
  {
  }

  lemma OfferKeeps(x: Chan, e: Event)
    requires ChanOk(x, true)
    ensures ChanOk(Offered(x, e), true)
  {
    SubsequenceMore(x.received + x.buffer, x.offered, e);
    assert x.received + (x.buffer + [e]) == (x.received + x.buffer) + [e];
  }

  lemma SendKeeps(j: Job, ch: nat, e: Event)
    requires ChansOk(j) && ch < |j.chans| && !SendPanics(j, ch)
    ensures ChansOk(Send(j, ch, e))
  {
    OfferKeeps(j.chans[ch], e);
  }

  lemma ReceiveKeeps(j: Job, ch: nat)
    requires ChansOk(j) && ch < |j.chans| && j.chans[ch].buffer != []
    ensures ChansOk(Receive(j, ch))
  {
    var x := j.chans[ch];
    assert x.received + [x.buffer[0]] + x.buffer[1..] == x.received + x.buffer;
  }

  lemma CloseAllKeeps(j: Job)
    requires ChansOk(j)
    ensures ChansOk(CloseAll(j))
  {
  }

  lemma CloseOneMore(chans: seq<Chan>, closed: set<nat>, ch: nat)
    requires ch < |chans| && ch !in closed
    ensures var c := CloseEach(chans, closed);
            CloseEach(chans, closed + {ch}) == c[ch := c[ch].(closes := c[ch].closes + 1)]
  {
  }

  // ----- The object -----

  /** A subscriptionLatencyJob. Each method is one critical section, except Offer, which is the sends that
      update makes after it has released the mutex. */
  class SubscriptionJob {
    var status: Status
    var subscribers: set<nat>
    var chans: seq<Chan>

    constructor (total: nat)
      ensures View() == Job(Status(Running, total, 0, 0, 0), {}, [])
    {
      status := Status(Running, total, 0, 0, 0);
      subscribers := {};
      chans := [];
    }

    function View(): Job
      reads this
    {
      Job(status, subscribers, chans)
    }

    method NewSubscriber() returns (ch: nat)
      modifies this
      ensures View() == Subscribe(old(View())) && ch == |old(chans)|
    {
      ch := |chans|;
      chans := chans + [NEW_CHAN];
      subscribers := subscribers + {ch};
    }

    method Cancel(ch: nat)
      requires ch < |chans|
      modifies this
      ensures View() == Unsubscribe(old(View()), ch)
    {
      if ch in subscribers {
        subscribers := subscribers - {ch};
        chans := chans[ch := chans[ch].(closes := chans[ch].closes + 1)];
      }
    }

    /** The locked part of update: mutate the status, then copy it and the subscribers. */
    method Mutate(mut: Status -> Status) returns (snap: Status, subs: set<nat>)
      modifies this
      ensures View() == old(View()).(status := mut(old(status)))
      ensures snap == status && subs == subscribers
    {
      status := mut(status);
      snap := status;
      subs := {};
      var rest := subscribers;
      while rest != {}
        invariant subs + rest == subscribers && subs !! rest
        invariant View() == old(View()).(status := snap)
        decreases rest
      {
        var ch :| ch in rest;
        rest := rest - {ch};
        subs := subs + {ch};
      }
    }

    method Offer(ch: nat, e: Event)
      requires ch < |chans| && !SendPanics(View(), ch)
      modifies this
      ensures View() == Send(old(View()), ch, e)
    {
      var x := chans[ch];
      if |x.buffer| < CAPACITY {
        x := x.(buffer := x.buffer + [e]);
      }
      chans := chans[ch := x.(offered := x.offered + [e])];
    }

    method CloseSubscribers()
      requires forall ch :: ch in subscribers ==> ch < |chans|
      modifies this
      ensures View() == CloseAll(old(View()))
    {
      ghost var before, all, same := chans, subscribers, status;
      ghost var closed: set<nat> := {};
      assert CloseEach(before, {}) == before;
      while subscribers != {}
        invariant closed + subscribers == all && closed !! subscribers
        invariant chans == CloseEach(before, closed) && status == same
        decreases subscribers
      {
        var ch :| ch in subscribers;
        CloseOneMore(before, closed, ch);
        chans := chans[ch := chans[ch].(closes := chans[ch].closes + 1)];
        subscribers := subscribers - {ch};
        closed := closed + {ch};
      }
      assert closed == all;
    }
  }
}
