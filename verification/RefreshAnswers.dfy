/** What a refresh gives the callers: who asked for which target, and what came back. */
module RefreshAnswers {
  import opened Text
  import opened Singleflight

  /** The caller asked for this target, and waits or not. Whatever call it has is one of that target, and only those who
      do not wait go away without an answer. */
  ghost predicate Serves(s: State, x: Caller, id: Id, wait: bool) {
    match x
    case Arrived(i, w) => i == id && w == wait
    case Holding(i, w) => i == id && w == wait
    case Joined(k) => wait && k < |s.calls| && s.calls[k].id == id
    case Leading(k) => wait && k < |s.calls| && s.calls[k].id == id
    case Returned(k, _) => wait && k < |s.calls| && s.calls[k].id == id
    case Dismissed(k) => !wait && k < |s.calls| && s.calls[k].id == id
  }

  lemma {:induction false} StepServes(s: State, t: Step, c: nat, id: Id, wait: bool)
    requires Inv(s) && Enabled(s, t) && c < |s.callers| && Serves(s, s.callers[c], id, wait)
    ensures c < |Next(s, t).callers| && Serves(Next(s, t), Next(s, t).callers[c], id, wait)
  {
  }

  lemma {:induction false} RunServes(s: State, steps: seq<Step>, c: nat, id: Id, wait: bool)
    requires Inv(s) && IsRun(s, steps) && c < |s.callers| && Serves(s, s.callers[c], id, wait)
    ensures c < |After(s, steps).callers| && Serves(After(s, steps), After(s, steps).callers[c], id, wait)
    decreases |steps|
  {
    if steps != [] {
      StepServes(s, steps[0], c, id, wait);
      StepKeepsInv(s, steps[0]);
      RunServes(Next(s, steps[0]), steps[1..], c, id, wait);
    }
  }


  /** The call knows what its refresh returned. */
  predicate HasRun(s: State, k: nat) {
    k < |s.calls| && !s.calls[k].runner.Fetching?
  }

  lemma {:induction false} StepKeepsGot(s: State, t: Step, k: nat)
    requires Enabled(s, t)
    ensures HasRun(s, k) ==> HasRun(Next(s, t), k) && Next(s, t).calls[k].runner.got == s.calls[k].runner.got
    ensures !HasRun(s, k) && HasRun(Next(s, t), k) ==> t == Fetch(k, Next(s, t).calls[k].runner.got)
  {
  }

  lemma {:induction false} RunKeepsGot(s: State, steps: seq<Step>, k: nat)
    requires IsRun(s, steps) && HasRun(s, k)
    ensures HasRun(After(s, steps), k) && After(s, steps).calls[k].runner.got == s.calls[k].runner.got
    decreases |steps|
  {
    if steps != [] {
      StepKeepsGot(s, steps[0], k);
      RunKeepsGot(Next(s, steps[0]), steps[1..], k);
    }
  }

  /** The step at which the refresh of a call returned. */
  lemma {:induction false} WhenItReturned(s: State, steps: seq<Step>, k: nat) returns (i: nat)
    requires IsRun(s, steps) && !HasRun(s, k) && HasRun(After(s, steps), k)
    ensures i < |steps| && steps[i] == Fetch(k, After(s, steps).calls[k].runner.got)
    decreases |steps|
  {
    StepKeepsGot(s, steps[0], k);
    if HasRun(Next(s, steps[0]), k) {
      RunKeepsGot(Next(s, steps[0]), steps[1..], k);
      i := 0;
    } else {
      var j := WhenItReturned(Next(s, steps[0]), steps[1..], k);
      i := j + 1;
    }
  }

  lemma {:induction false} RunSplits(s: State, first: seq<Step>, second: seq<Step>)
    requires IsRun(s, first + second)
    ensures IsRun(s, first) && IsRun(After(s, first), second)
    ensures After(s, first + second) == After(After(s, first), second)
    decreases |first|
  {
    if first == [] {
      assert first + second == second;
    } else {
      assert (first + second)[0] == first[0] && (first + second)[1..] == first[1..] + second;
      RunSplits(Next(s, first[0]), first[1..], second);
    }
  }

  /** Main result: whoever asks for a target and waits gets what a refresh of that target returned in this run, to the
      letter; whoever does not wait gets nothing. */
  lemma {:induction false} CallersGetWhatWasFetched(before: seq<Step>, id: Id, wait: bool, after: seq<Step>)
    requires IsRun(START, before + [Arrive(id, wait)] + after)
    ensures IsRun(START, before)
    ensures var c, end := |After(START, before).callers|, After(START, before + [Arrive(id, wait)] + after);
            && c < |end.callers| && Serves(end, end.callers[c], id, wait)
            && (end.callers[c].Returned? ==>
                  Fetch(end.callers[c].call, end.callers[c].answer) in before + [Arrive(id, wait)] + after)
  {
    var first, steps := before + [Arrive(id, wait)], before + [Arrive(id, wait)] + after;
    RunSplits(START, first, after);
    RunSplits(START, before, [Arrive(id, wait)]);
    RunKeepsInv(START, first);
    var c, end := |After(START, before).callers|, After(START, steps);
    RunServes(After(START, first), after, c, id, wait);
    RunKeepsInv(START, steps);
    InvIsSafe(end);
    if end.callers[c].Returned? {
      var i := WhenItReturned(START, steps, end.callers[c].call);
      assert steps[i] in steps;
    }
  }

  /** Main result: once nobody else arrives and the run cannot go on, whoever waits has its answer. */
  lemma {:induction false} WaitersAreAnswered(before: seq<Step>, id: Id, after: seq<Step>)
    requires IsRun(START, before + [Arrive(id, true)] + after)
    requires forall t :: Enabled(After(START, before + [Arrive(id, true)] + after), t) ==> t.Arrive?
    ensures IsRun(START, before)
    ensures var c, end := |After(START, before).callers|, After(START, before + [Arrive(id, true)] + after);
            c < |end.callers| && end.callers[c].Returned?
  {
    var steps := before + [Arrive(id, true)] + after;
    CallersGetWhatWasFetched(before, id, true, after);
    RunKeepsInv(START, steps);
    EveryoneReturns(After(START, steps), []);
  }
}
