/** refreshSubscriptionWithSingleflight (server/internal/service/target_service.go) as a protocol: any
    number of callers, one mutex, one channel per call, every interleaving of their steps. */
module Singleflight {
  import opened Text

  type Id = nat
  type Snap = nat
  type Error = nat

  /** What refreshSubscriptionOnce returns: Go's pair of pointers, either of which may be nil. */
  datatype Answer = Answer(snap: Option<Snap>, err: Option<Error>)

  const UNSET := Answer(None, None)

  /** Where the function run of a call stands. Ran knows what refreshSubscriptionOnce returned. */
  datatype Runner =
    | Fetching
    | Ran(got: Answer)
    | Locked(got: Answer)
    | SnapWritten(got: Answer)
    | ErrWritten(got: Answer)
    | Closed(got: Answer)
    | Deleted(got: Answer)
    | Finished(got: Answer)

  /** A subscriptionRefreshCall: its fields, how often its channel was closed, and its runner. */
  datatype Call = Call(id: Id, fields: Answer, closes: nat, runner: Runner)

  datatype Caller =
    | Arrived(id: Id, wait: bool)
    | Holding(id: Id, wait: bool)
    | Joined(call: nat)              // blocked on <-call.done
    | Leading(call: nat)             // executes run itself
    | Returned(call: nat, answer: Answer)
    | Dismissed(call: nat)           // did not wait: got nil, nil

  datatype Holder = Free | ByCaller(c: nat) | ByRunner(k: nat)

  datatype State = State(mutex: Holder, inFlight: map<Id, nat>, calls: seq<Call>, callers: seq<Caller>)

  const START := State(Free, map[], [], [])

  datatype Step =
    | Arrive(id: Id, wait: bool)
    | Acquire(c: nat)
    | Enter(c: nat)                  // the critical section of the caller, up to its unlock
    | Return(c: nat)                 // a joiner woken by the closed channel, or a leader whose run is over
    | Fetch(k: nat, got: Answer)     // refreshSubscriptionOnce returns
    | Lock(k: nat)
    | WriteSnap(k: nat)
    | WriteErr(k: nat)
    | Close(k: nat)
    | Delete(k: nat)
    | Unlock(k: nat)

  predicate Enabled(s: State, t: Step) {
    match t
    case Arrive(_, _) => true
    case Acquire(c) => c < |s.callers| && s.callers[c].Arrived? && s.mutex == Free
    case Enter(c) => c < |s.callers| && s.callers[c].Holding?
    case Return(c) =>
      && c < |s.callers|
      && ((s.callers[c].Joined? && s.callers[c].call < |s.calls| && s.calls[s.callers[c].call].closes > 0) ||
          (s.callers[c].Leading? && s.callers[c].call < |s.calls| && s.calls[s.callers[c].call].runner.Finished?))
    case Fetch(k, _) => k < |s.calls| && s.calls[k].runner.Fetching?
    case Lock(k) => k < |s.calls| && s.calls[k].runner.Ran? && s.mutex == Free
    case WriteSnap(k) => k < |s.calls| && s.calls[k].runner.Locked?
    case WriteErr(k) => k < |s.calls| && s.calls[k].runner.SnapWritten?
    case Close(k) => k < |s.calls| && s.calls[k].runner.ErrWritten?
    case Delete(k) => k < |s.calls| && s.calls[k].runner.Closed?
    case Unlock(k) => k < |s.calls| && s.calls[k].runner.Deleted?
  }

  function SetCaller(s: State, c: nat, x: Caller): State
    requires c < |s.callers|
  {
    s.(callers := s.callers[c := x])
  }

  function SetCall(s: State, k: nat, x: Call): State
    requires k < |s.calls|
  {
    s.(calls := s.calls[k := x])
  }

  /** The critical section of a caller: join the call in flight or start one. */
  function EnterLocked(s: State, c: nat): State
    requires c < |s.callers| && s.callers[c].Holding?
  {
    var x := s.callers[c];
    if x.id in s.inFlight then
      SetCaller(s, c, if x.wait then Joined(s.inFlight[x.id]) else Dismissed(s.inFlight[x.id])).(mutex := Free)
    else
      var k := |s.calls|;
      var s1 := s.(calls := s.calls + [Call(x.id, UNSET, 0, Fetching)], inFlight := s.inFlight[x.id := k]);
      SetCaller(s1, c, if x.wait then Leading(k) else Dismissed(k)).(mutex := Free)
  }

  function Next(s: State, t: Step): State
    requires Enabled(s, t)
  {
    match t
    case Arrive(id, wait) => s.(callers := s.callers + [Arrived(id, wait)])
    case Acquire(c) => SetCaller(s, c, Holding(s.callers[c].id, s.callers[c].wait)).(mutex := ByCaller(c))
    case Enter(c) => EnterLocked(s, c)
    case Return(c) => SetCaller(s, c, Returned(s.callers[c].call, s.calls[s.callers[c].call].fields))
    case Fetch(k, got) => SetCall(s, k, s.calls[k].(runner := Ran(got)))
    case Lock(k) => SetCall(s, k, s.calls[k].(runner := Locked(s.calls[k].runner.got))).(mutex := ByRunner(k))
    case WriteSnap(k) =>
      var x := s.calls[k];
      SetCall(s, k, x.(fields := x.fields.(snap := x.runner.got.snap), runner := SnapWritten(x.runner.got)))
    case WriteErr(k) =>
      var x := s.calls[k];
      SetCall(s, k, x.(fields := x.fields.(err := x.runner.got.err), runner := ErrWritten(x.runner.got)))
    case Close(k) =>
      SetCall(s, k, s.calls[k].(closes := s.calls[k].closes + 1, runner := Closed(s.calls[k].runner.got)))
    case Delete(k) =>
      SetCall(s, k, s.calls[k].(runner := Deleted(s.calls[k].runner.got))).(inFlight := s.inFlight - {s.calls[k].id})
    case Unlock(k) => SetCall(s, k, s.calls[k].(runner := Finished(s.calls[k].runner.got))).(mutex := Free)
  }

  /** A run: every step is enabled where it is taken. */
  ghost predicate IsRun(s: State, steps: seq<Step>)
    decreases |steps|
  {
    steps == [] || (Enabled(s, steps[0]) && IsRun(Next(s, steps[0]), steps[1..]))
  }

  function After(s: State, steps: seq<Step>): State
    requires IsRun(s, steps)
    decreases |steps|
  {
    if steps == [] then s else After(Next(s, steps[0]), steps[1..])
  }

  // ----- The invariant -----

  /** The call has not yet been taken out of the in-flight map. */
  predicate InFlight(x: Call) {
    !x.runner.Deleted? && !x.runner.Finished?
  }

  predicate HoldsLock(r: Runner) {
    r.Locked? || r.SnapWritten? || r.ErrWritten? || r.Closed? || r.Deleted?
  }

  /** What the fields and the channel of a call show at each point of its runner. */
  predicate CallOk(x: Call) {
    match x.runner
    case Fetching => x.fields == UNSET && x.closes == 0
    case Ran(_) => x.fields == UNSET && x.closes == 0
    case Locked(_) => x.fields == UNSET && x.closes == 0
    case SnapWritten(got) => x.fields == Answer(got.snap, None) && x.closes == 0
    case ErrWritten(got) => x.fields == got && x.closes == 0
    case Closed(got) => x.fields == got && x.closes == 1
    case Deleted(got) => x.fields == got && x.closes == 1
    case Finished(got) => x.fields == got && x.closes == 1
  }

  /** The result a caller has is the one that its call's refresh returned. */
  predicate CallerOk(s: State, x: Caller) {
    match x
    case Arrived(_, _) => true
    case Holding(_, _) => true
    case Joined(k) => k < |s.calls|
    case Leading(k) => k < |s.calls|
    case Dismissed(k) => k < |s.calls|
    case Returned(k, a) =>
      k < |s.calls| && s.calls[k].closes == 1 && !s.calls[k].runner.Fetching? && a == s.calls[k].runner.got
  }

  /** The in-flight map has an entry exactly for the calls whose runner has not deleted it. */
  ghost predicate MapOk(s: State) {
    && (forall id :: id in s.inFlight ==>
          s.inFlight[id] < |s.calls| && s.calls[s.inFlight[id]].id == id && InFlight(s.calls[s.inFlight[id]]))
    && (forall k :: 0 <= k < |s.calls| && InFlight(s.calls[k]) ==>
          s.calls[k].id in s.inFlight && s.inFlight[s.calls[k].id] == k)
  }

  ghost predicate MutexOk(s: State) {
    && (forall c :: 0 <= c < |s.callers| ==> (s.callers[c].Holding? <==> s.mutex == ByCaller(c)))
    && (forall k :: 0 <= k < |s.calls| ==> (HoldsLock(s.calls[k].runner) <==> s.mutex == ByRunner(k)))
    && (s.mutex.ByCaller? ==> s.mutex.c < |s.callers|)
    && (s.mutex.ByRunner? ==> s.mutex.k < |s.calls|)
  }

  ghost predicate Inv(s: State) {
    && (forall k :: 0 <= k < |s.calls| ==> CallOk(s.calls[k]))
    && (forall c :: 0 <= c < |s.callers| ==> CallerOk(s, s.callers[c]))
    && MapOk(s)
    && MutexOk(s)
  }

  lemma StepKeepsCalls(s: State, t: Step)
    requires Inv(s) && Enabled(s, t)
    ensures forall k :: 0 <= k < |Next(s, t).calls| ==> CallOk(Next(s, t).calls[k])
  {
  }

  lemma StepKeepsCallers(s: State, t: Step)
    requires Inv(s) && Enabled(s, t)
    ensures forall c :: 0 <= c < |Next(s, t).callers| ==> CallerOk(Next(s, t), Next(s, t).callers[c])
  {
  }

  lemma EnterKeepsMap(s: State, c: nat)
    requires Inv(s) && Enabled(s, Enter(c))
    ensures MapOk(EnterLocked(s, c))
  {
  }

  lemma DeleteKeepsMap(s: State, k: nat)
    requires Inv(s) && Enabled(s, Delete(k))
    ensures MapOk(Next(s, Delete(k)))
  {
    var s', id := Next(s, Delete(k)), s.calls[k].id;
    assert s.inFlight[id] == k;
    forall j | 0 <= j < |s'.calls| && InFlight(s'.calls[j])
      ensures s'.calls[j].id in s'.inFlight && s'.inFlight[s'.calls[j].id] == j
    {
      assert InFlight(s.calls[j]) && j != k;
    }
  }

  /** Changing a call without taking it in or out of flight. */
  lemma MapFrame(s: State, k: nat, s': State)
    requires MapOk(s) && k < |s.calls| && |s'.calls| == |s.calls|
    requires s'.inFlight == s.inFlight && s'.calls == s.calls[k := s'.calls[k]]
    requires s'.calls[k].id == s.calls[k].id && (InFlight(s'.calls[k]) <==> InFlight(s.calls[k]))
    ensures MapOk(s')
  {
    assert forall j :: 0 <= j < |s.calls| && j != k ==> s'.calls[j] == s.calls[j];
  }

  lemma StepKeepsMap(s: State, t: Step)
    requires Inv(s) && Enabled(s, t)
    ensures MapOk(Next(s, t))
  {
    match t
    case Enter(c) => EnterKeepsMap(s, c);
    case Delete(k) => DeleteKeepsMap(s, k);
    case Arrive(_, _) =>
    case Acquire(_) =>
    case Return(_) =>
    case Fetch(k, _) => MapFrame(s, k, Next(s, t));
    case Lock(k) => MapFrame(s, k, Next(s, t));
    case WriteSnap(k) => MapFrame(s, k, Next(s, t));
    case WriteErr(k) => MapFrame(s, k, Next(s, t));
    case Close(k) => MapFrame(s, k, Next(s, t));
    case Unlock(k) => MapFrame(s, k, Next(s, t));
  }

  lemma StepKeepsMutex(s: State, t: Step)
    requires Inv(s) && Enabled(s, t)
    ensures MutexOk(Next(s, t))
  {
  }

  lemma StepKeepsInv(s: State, t: Step)
    requires Inv(s) && Enabled(s, t)
    ensures Inv(Next(s, t))
  {
    StepKeepsCalls(s, t);
    StepKeepsCallers(s, t);
    StepKeepsMap(s, t);
    StepKeepsMutex(s, t);
  }

  lemma {:induction false} RunKeepsInv(s: State, steps: seq<Step>)
    requires Inv(s) && IsRun(s, steps)
    ensures Inv(After(s, steps))
    decreases |steps|
  {
    if steps != [] {
      StepKeepsInv(s, steps[0]);
      RunKeepsInv(Next(s, steps[0]), steps[1..]);
    }
  }

  // ----- Safety -----

  predicate Refreshing(x: Call, id: Id) {
    x.id == id && x.runner.Fetching?
  }

  ghost predicate Safe(s: State) {
    // at most one refresh per target
    && (forall j, k, id ::
          0 <= j < |s.calls| && 0 <= k < |s.calls| && Refreshing(s.calls[j], id) && Refreshing(s.calls[k], id) ==>
          j == k)
    // the map has an entry exactly for targets with a call that has not been taken out
    && (forall id :: id in s.inFlight <==>
          exists k :: 0 <= k < |s.calls| && s.calls[k].id == id && InFlight(s.calls[k]))
    // no channel is closed twice, and only after the refresh has returned
    && (forall k :: 0 <= k < |s.calls| ==>
          s.calls[k].closes <= 1 && (s.calls[k].runner.Fetching? ==> s.calls[k].closes == 0))
    // a waiter returns what the refresh of its call returned
    && (forall c :: 0 <= c < |s.callers| && s.callers[c].Returned? ==>
          s.callers[c].call < |s.calls| && !s.calls[s.callers[c].call].runner.Fetching? &&
          s.callers[c].answer == s.calls[s.callers[c].call].runner.got)
  }

  lemma InvIsSafe(s: State)
    requires Inv(s)
    ensures Safe(s)
  {
    forall id
      ensures id in s.inFlight <==> exists k :: 0 <= k < |s.calls| && s.calls[k].id == id && InFlight(s.calls[k])
    {
      if id in s.inFlight {
        var k := s.inFlight[id];
        assert 0 <= k < |s.calls| && s.calls[k].id == id && InFlight(s.calls[k]);
      }
    }
    forall j, k, id | 0 <= j < |s.calls| && 0 <= k < |s.calls| && Refreshing(s.calls[j], id) &&
                      Refreshing(s.calls[k], id)
      ensures j == k
    {
      assert InFlight(s.calls[j]) && InFlight(s.calls[k]);
    }
  }

  /** Main result: whatever the callers, the refreshes and the interleaving, every reachable state is safe. */
  lemma EveryRunIsSafe(steps: seq<Step>)
    requires IsRun(START, steps)
    ensures Safe(After(START, steps))
  {
    RunKeepsInv(START, steps);
    InvIsSafe(After(START, steps));
  }

  /** A caller that finds a call in flight joins it before it has published anything; a caller that finds
      none starts a fresh one. */
  lemma EnteringIsTimely(s: State, c: nat)
    requires Inv(s) && Enabled(s, Enter(c))
    ensures var x, s' := s.callers[c], Next(s, Enter(c));
            var y := s'.callers[c];
            && (y.Joined? || y.Leading? || y.Dismissed?) && y.call < |s'.calls|
            && s'.calls[y.call].id == x.id && s'.calls[y.call].closes == 0 && s'.calls[y.call].fields == UNSET
            && (y.Leading? ==> x.id !in s.inFlight) && (y.Joined? ==> x.id in s.inFlight)
            && (x.id !in s.inFlight ==> y.call == |s.calls| && s'.calls[y.call].runner.Fetching?)
            && (x.id in s.inFlight ==> s'.calls == s.calls)
            && (y.Dismissed? <==> !x.wait)
  {
    var x := s.callers[c];
    if x.id in s.inFlight {
      var k := s.inFlight[x.id];
      assert s.mutex == ByCaller(c) && !HoldsLock(s.calls[k].runner);
    }
  }

  // ----- Progress -----

  function CallerRank(x: Caller): nat {
    match x
    case Arrived(_, _) => 11
    case Holding(_, _) => 10
    case Joined(_) => 1
    case Leading(_) => 1
    case Returned(_, _) => 0
    case Dismissed(_) => 0
  }

  function RunnerRank(r: Runner): nat {
    match r
    case Fetching => 7
    case Ran(_) => 6
    case Locked(_) => 5
    case SnapWritten(_) => 4
    case ErrWritten(_) => 3
    case Closed(_) => 2
    case Deleted(_) => 1
    case Finished(_) => 0
  }

  function CallersRank(xs: seq<Caller>): nat {
    if xs == [] then 0 else CallersRank(xs[..|xs| - 1]) + CallerRank(xs[|xs| - 1])
  }

  function CallsRank(xs: seq<Call>): nat {
    if xs == [] then 0 else CallsRank(xs[..|xs| - 1]) + RunnerRank(xs[|xs| - 1].runner)
  }

  function Rank(s: State): nat {
    CallersRank(s.callers) + CallsRank(s.calls)
  }

  lemma {:induction false} CallersRankAt(xs: seq<Caller>, c: nat, x: Caller)
    requires c < |xs|
    ensures CallersRank(xs[c := x]) == CallersRank(xs) - CallerRank(xs[c]) + CallerRank(x)
  {
    var n := |xs| - 1;
    if c < n {
      CallersRankAt(xs[..n], c, x);
      assert xs[c := x][..n] == xs[..n][c := x];
    } else {
      assert xs[c := x][..n] == xs[..n];
    }
  }

  lemma {:induction false} CallsRankAt(xs: seq<Call>, k: nat, x: Call)
    requires k < |xs|
    ensures CallsRank(xs[k := x]) == CallsRank(xs) - RunnerRank(xs[k].runner) + RunnerRank(x.runner)
  {
    var n := |xs| - 1;
    if k < n {
      CallsRankAt(xs[..n], k, x);
      assert xs[k := x][..n] == xs[..n][k := x];
    } else {
      assert xs[k := x][..n] == xs[..n];
    }
  }

  lemma CallsRankMore(xs: seq<Call>, x: Call)
    ensures CallsRank(xs + [x]) == CallsRank(xs) + RunnerRank(x.runner)
  {
    assert (xs + [x])[..|xs|] == xs;
  }

  lemma EnterUsesRank(s: State, c: nat)
    requires Enabled(s, Enter(c))
    ensures Rank(EnterLocked(s, c)) < Rank(s)
  {
    CallersRankAt(s.callers, c, EnterLocked(s, c).callers[c]);
    CallsRankMore(s.calls, Call(s.callers[c].id, UNSET, 0, Fetching));
  }

  /** Every step but the arrival of a caller uses up rank. */
  lemma StepsUseRank(s: State, t: Step)
    requires Enabled(s, t) && !t.Arrive?
    ensures Rank(Next(s, t)) < Rank(s)
  {
    var s' := Next(s, t);
    match t
    case Acquire(c) => CallersRankAt(s.callers, c, s'.callers[c]);
    case Enter(c) => EnterUsesRank(s, c);
    case Return(c) => CallersRankAt(s.callers, c, s'.callers[c]);
    case Fetch(k, _) => CallsRankAt(s.calls, k, s'.calls[k]);
    case Lock(k) => CallsRankAt(s.calls, k, s'.calls[k]);
    case WriteSnap(k) => CallsRankAt(s.calls, k, s'.calls[k]);
    case WriteErr(k) => CallsRankAt(s.calls, k, s'.calls[k]);
    case Close(k) => CallsRankAt(s.calls, k, s'.calls[k]);
    case Delete(k) => CallsRankAt(s.calls, k, s'.calls[k]);
    case Unlock(k) => CallsRankAt(s.calls, k, s'.calls[k]);
  }

  /** Nobody is waiting, leading or about to ask, and no run is going on. */
  ghost predicate Settled(s: State) {
    && (forall c :: 0 <= c < |s.callers| ==> s.callers[c].Returned? || s.callers[c].Dismissed?)
    && (forall k :: 0 <= k < |s.calls| ==> s.calls[k].runner.Finished?)
  }

  function RunnerStep(k: nat, r: Runner): Step
    requires !r.Finished?
  {
    match r
    case Fetching => Fetch(k, UNSET)
    case Ran(_) => Lock(k)
    case Locked(_) => WriteSnap(k)
    case SnapWritten(_) => WriteErr(k)
    case ErrWritten(_) => Close(k)
    case Closed(_) => Delete(k)
    case Deleted(_) => Unlock(k)
  }

  /** No deadlock: until everything is settled some step is enabled. */
  lemma SomeStepIsEnabled(s: State) returns (t: Step)
    requires Inv(s) && !Settled(s)
    ensures !t.Arrive? && Enabled(s, t)
  {
    if s.mutex.ByCaller? {
      t := Enter(s.mutex.c);
    } else if s.mutex.ByRunner? {
      t := RunnerStep(s.mutex.k, s.calls[s.mutex.k].runner);
    } else if k :| 0 <= k < |s.calls| && !s.calls[k].runner.Finished? {
      assert !HoldsLock(s.calls[k].runner);
      t := RunnerStep(k, s.calls[k].runner);
    } else {
      var c :| 0 <= c < |s.callers| && !s.callers[c].Returned? && !s.callers[c].Dismissed?;
      t := if s.callers[c].Arrived? then Acquire(c) else Return(c);
      assert !s.callers[c].Holding?;
      if !s.callers[c].Arrived? {
        assert CallerOk(s, s.callers[c]) && CallOk(s.calls[s.callers[c].call]);
      }
    }
  }

  /** No livelock: without new arrivals a run is no longer than the rank of its first state. */
  lemma {:induction false} RunsAreShort(s: State, steps: seq<Step>)
    requires IsRun(s, steps) && forall t :: t in steps ==> !t.Arrive?
    ensures |steps| + Rank(After(s, steps)) <= Rank(s)
    decreases |steps|
  {
    if steps != [] {
      StepsUseRank(s, steps[0]);
      RunsAreShort(Next(s, steps[0]), steps[1..]);
    }
  }

  /** Main result: once no more callers arrive, a run that cannot go on has let every caller return and
      has emptied the in-flight map, and every run gets there in at most Rank(s) steps. */
  lemma {:induction false} EveryoneReturns(s: State, steps: seq<Step>)
    requires Inv(s) && IsRun(s, steps) && forall t :: t in steps ==> !t.Arrive?
    requires forall t :: Enabled(After(s, steps), t) ==> t.Arrive?
    ensures Settled(After(s, steps)) && After(s, steps).inFlight == map[]
    ensures |steps| <= Rank(s)
  {
    var end := After(s, steps);
    RunKeepsInv(s, steps);
    RunsAreShort(s, steps);
    if !Settled(end) {
      var t := SomeStepIsEnabled(end);
      assert false;
    }
    assert forall id :: id !in end.inFlight;
  }
}
