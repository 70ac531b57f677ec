/** Which requests a fetch sends, when and for how long, and what it makes of them: one attempt read off its requests
    and the network, and the two loops around it as one. */
module FetchTrace {
  import opened Text
  import opened HostMemory
  import opened FetchLoop
  import opened FetchBounds
  import opened FetchHistory
  import opened FetchOutcome

  function EndOf(s: Sent): nat {
    s.at + s.took
  }

  /** The request came out as this reply has it: in time, or cut by the client's timer. */
  predicate CameOut(s: Sent, reply: Reply) {
    if s.timeout > 0 && reply.after > s.timeout then s.took == s.timeout && s.outcome == Broken(reply.cutError)
    else s.took == reply.after && s.outcome == reply.outcome
  }

  /** s is the n-th request of the service, sent like this and met by the network. */
  predicate IsRequest(env: Env, n: nat, s: Sent, agent: string, proto: Proto, at: nat, timeout: int) {
    && s.agent == agent && s.proto == proto && s.at == at && s.timeout == timeout
    && CameOut(s, env.net(n))
  }

  /** An error after which the other protocol is tried. */
  predicate CallsForOther(e: NetError) {
    e.http2 || e.goAway || e.streamError || e.transportBroken || IsTimeoutLike(e) || IsConnectionDrop(e)
  }

  /** The time that a try has: its own, and never more than what is left of the call's budget. */
  predicate IsTryTime(env: Env, now: nat, tryTime: int) {
    && tryTime <= env.tryTimeout && tryTime <= env.deadline - now
    && (tryTime == env.tryTimeout || tryTime == env.deadline - now)
  }

  /** The first planned request: all of the try's time for a fixed protocol, else between 1.5 and 3 seconds of it. */
  ghost predicate OpensAttempt(env: Env, agent: string, plan: seq<Proto>, now: nat, tryTime: int, n: nat, s: Sent)
    requires plan != []
  {
    && s.role == Planned
    && exists timeout ::
         && IsRequest(env, n, s, agent, plan[0], now, timeout)
         && if env.mode.Only? then timeout == tryTime
            else if tryTime >= 3_000_000_000 then timeout == 3_000_000_000
            else if tryTime >= 1_500_000_000 then timeout == tryTime
            else timeout == 1_500_000_000
  }

  /** The second planned request, sent when the first has ended: it has what is left of the budget, less once more what
      the first one took, but for when that would be nothing; never more than a try's time. */
  ghost predicate FollowsUp(env: Env, agent: string, plan: seq<Proto>, tryTime: int, n: nat, first: Sent, s: Sent)
    requires |plan| == 2
  {
    var left := env.deadline - EndOf(first);
    && s.role == Planned
    && exists timeout ::
         && IsRequest(env, n, s, agent, plan[1], EndOf(first), timeout)
         && if left > first.took then timeout == Min(left - first.took, tryTime)
            else if left > 0 then timeout == Min(left, tryTime)
            else timeout == tryTime
  }

  /** After a second request that broke with a timeout, and no mismatch, a pair is sent if time allows. */
  predicate CallsForPair(env: Env, tryTime: int, second: Sent) {
    && second.outcome.Broken? && IsTimeoutLike(second.outcome.err) && !IsProtocolMismatch(second.outcome.err)
    && tryTime >= 3_000_000_000 && env.deadline - EndOf(second) > 1_200_000_000
  }

  /** Both protocols at once, when the second request has ended, each for half a try's time, at least 1.5 seconds and at
      most what is left. The first answer received wins. */
  ghost predicate IsPair(env: Env, agent: string, tryTime: int, n: nat, at: nat, h2: Sent, h1: Sent) {
    && (exists timeout ::
          && IsRequest(env, n, h2, agent, H2, at, timeout) && IsRequest(env, n + 1, h1, agent, H1, at, timeout)
          && timeout == Min(Max(tryTime / 2, 1_500_000_000), env.deadline - at))
    && var h2Wins := h2.outcome.Answer? && (h1.outcome.Answer? ==> env.raceH2First(n));
       var h1Wins := h1.outcome.Answer? && (h2.outcome.Answer? ==> !env.raceH2First(n));
       && h2.role == (if h2Wins then HedgeWinner else HedgeLoser)
       && h1.role == (if h1Wins then HedgeWinner else HedgeLoser)
  }

  /** The requests of one attempt: one, both planned ones, or these and a pair. */
  ghost predicate AreRequests(
    env: Env, agent: string, plan: seq<Proto>, now: nat, tryTime: int, n: nat, sent: seq<Sent>)
  {
    && IsTryTime(env, now, tryTime)
    && |plan| == (if env.mode.Auto? then 2 else 1)
    && (|sent| == 1 || |sent| == 2 || |sent| == 4)
    && OpensAttempt(env, agent, plan, now, tryTime, n, sent[0])
    && (|sent| >= 2 <==> env.mode.Auto? && sent[0].outcome.Broken? && CallsForOther(sent[0].outcome.err))
    && (|sent| >= 2 ==> FollowsUp(env, agent, plan, tryTime, n + 1, sent[0], sent[1]))
    && (|sent| == 4 <==> |sent| >= 2 && CallsForPair(env, tryTime, sent[1]))
    && (|sent| == 4 ==> IsPair(env, agent, tryTime, n + 2, EndOf(sent[1]), sent[2], sent[3]))
  }

  /** The request whose answer the attempt goes on with: the last planned one, or the winner of the pair. */
  predicate IsChosen(sent: seq<Sent>, s: Sent)
    requires |sent| == 1 || |sent| == 2 || |sent| == 4
  {
    s.outcome.Answer? &&
    if |sent| < 4 then s == sent[|sent| - 1] else s in sent[2..] && s.role == HedgeWinner
  }

  /** Of two errors the earlier one tells more. */
  predicate TellsMore(a: NetError, b: NetError) {
    (a.awaitingHeaders && b.malformedResponse) || (a.contextDeadlineExceeded && b.transportBroken)
  }

  function MoreTelling(a: NetError, b: NetError): NetError {
    if TellsMore(a, b) then a else b
  }

  /** The error of an attempt without an answer. */
  ghost predicate IsAttemptError(env: Env, n: nat, sent: seq<Sent>, e: NetError)
    requires |sent| == 1 || |sent| == 2 || |sent| == 4
  {
    && (forall i :: 0 <= i < |sent| ==> sent[i].outcome.Broken?)
    && var last :=
         if |sent| < 4 then sent[|sent| - 1].outcome.err
         else if env.raceH2First(n + 2) then MoreTelling(sent[2].outcome.err, sent[3].outcome.err)
         else MoreTelling(sent[3].outcome.err, sent[2].outcome.err);
       e == MoreTelling(sent[0].outcome.err, last)
  }

  // ----- One attempt -----

  lemma {:induction false} ExchangeIsRequest(
    env: Env, w: World, agent: string, proto: Proto, timeout: int, n: nat, role: Role)
    ensures var s := Exchange(env, w, agent, proto, timeout, n, role);
            IsRequest(env, n, s, agent, proto, w.now, timeout) && s.role == role
  {
  }

  lemma {:induction false} TryTimeIs(env: Env, now: nat)
    ensures IsTryTime(env, now, TryTime(env, now))
  {
  }

  /** One planned request: what is added to the trace, and where the attempt stands then. */
  lemma {:induction false} TryOneSends(
    env: Env, agent: string, tryTime: int, stageStart: nat, plan: seq<Proto>, pi: nat, st: Stage) returns (s: Sent)
    requires pi < |plan|
    ensures var r := TryOne(env, agent, tryTime, stageStart, plan, pi, st);
            && s.role == Planned
            && IsRequest(env, |st.w.trace|, s, agent, plan[pi], st.w.now,
                         ProtoTimeout(env, tryTime, stageStart, |plan|, pi, st.w.now))
            && r.w.trace == st.w.trace + [s] && r.w.now == EndOf(s)
            && r.got == (if s.outcome.Answer? then Some(s) else None)
            && r.err == (if s.outcome.Answer? then None else Some(s.outcome.err))
            && r.primary == (if pi == 0 && s.outcome.Broken? then Some(s.outcome.err) else st.primary)
  {
    var timeout := ProtoTimeout(env, tryTime, stageStart, |plan|, pi, st.w.now);
    s := Exchange(env, st.w, agent, plan[pi], timeout, |st.w.trace|, Planned);
    ExchangeIsRequest(env, st.w, agent, plan[pi], timeout, |st.w.trace|, Planned);
  }

  /** Whether the attempt goes on with the other protocol. */
  lemma {:induction false} GoesOnIff(env: Env, st: Stage)
    ensures GoesOn(env, st) <==> env.mode.Auto? && st.err.Some? && CallsForOther(st.err.value)
  {
  }

  /** Where the planned requests leave an attempt. */
  predicate EndsWith(st: Stage, planned: seq<Sent>)
    requires planned != []
  {
    var last := planned[|planned| - 1];
    && st.w.now == EndOf(last)
    && st.got == (if last.outcome.Answer? then Some(last) else None)
    && st.err == (if last.outcome.Answer? then None else Some(last.outcome.err))
    && st.primary == (if planned[0].outcome.Broken? then Some(planned[0].outcome.err) else None)
  }

  /** The planned requests of an attempt. */
  ghost predicate ArePlanned(env: Env, agent: string, plan: seq<Proto>, now: nat, tryTime: int, n: nat, sent: seq<Sent>)
    requires |plan| == if env.mode.Auto? then 2 else 1
  {
    && (|sent| == 1 || |sent| == 2)
    && OpensAttempt(env, agent, plan, now, tryTime, n, sent[0])
    && (|sent| == 2 <==> env.mode.Auto? && sent[0].outcome.Broken? && CallsForOther(sent[0].outcome.err))
    && (|sent| == 2 ==> FollowsUp(env, agent, plan, tryTime, n + 1, sent[0], sent[1]))
  }

  lemma {:induction false} PlannedRequests(
    env: Env, agent: string, plan: seq<Proto>, w: World)
    returns (sent: seq<Sent>)
    requires |plan| == if env.mode.Auto? then 2 else 1
    ensures var tryTime := TryTime(env, w.now);
            var r := TryFrom(env, agent, tryTime, w.now, plan, 0, Stage(w, None, None, None));
            && ArePlanned(env, agent, plan, w.now, tryTime, |w.trace|, sent)
            && r.w.trace == w.trace + sent && EndsWith(r, sent)
  {
    var tryTime, start := TryTime(env, w.now), Stage(w, None, None, None);
    var first := TryOneSends(env, agent, tryTime, w.now, plan, 0, start);
    var st1 := TryOne(env, agent, tryTime, w.now, plan, 0, start);
    GoesOnIff(env, st1);
    if GoesOn(env, st1) {
      var second := TryOneSends(env, agent, tryTime, w.now, plan, 1, st1);
      var st2 := TryOne(env, agent, tryTime, w.now, plan, 1, st1);
      assert TryFrom(env, agent, tryTime, w.now, plan, 1, st1) == st2 by {
        assert TryFrom(env, agent, tryTime, w.now, plan, 2, st2) == st2;
      }
      sent := [first, second];
      assert w.trace + [first] + [second] == w.trace + sent;
    } else {
      sent := [first];
    }
  }

  /** The pair, as it is added to the trace. */
  lemma {:induction false} RaceSends(env: Env, agent: string, tryTime: int, st: Stage) returns (h2: Sent, h1: Sent)
    ensures var r := Race(env, agent, HedgeTimeout(env, tryTime, st.w.now), st);
            && IsPair(env, agent, tryTime, |st.w.trace|, st.w.now, h2, h1)
            && r.w.trace == st.w.trace + [h2, h1] && r.w.now == Max(EndOf(h2), EndOf(h1))
            && (r.got.Some? <==> h2.outcome.Answer? || h1.outcome.Answer?)
            && (r.got.Some? ==> r.got.value in [h2, h1])
            && (r.got.Some? ==> r.got.value.role == HedgeWinner && r.got.value.outcome.Answer?)
            && (r.got.None? ==>
                  r.err == Some(if env.raceH2First(|st.w.trace|) then MoreTelling(h2.outcome.err, h1.outcome.err)
                                else MoreTelling(h1.outcome.err, h2.outcome.err)))
            && r.primary == st.primary
  {
    var timeout, n := HedgeTimeout(env, tryTime, st.w.now), |st.w.trace|;
    var r := Race(env, agent, timeout, st);
    ExchangeIsRequest(env, st.w, agent, H2, timeout, n, HedgeLoser);
    ExchangeIsRequest(env, st.w, agent, H1, timeout, n + 1, HedgeLoser);
    h2, h1 := r.w.trace[n], r.w.trace[n + 1];
    assert IsRequest(env, n, h2, agent, H2, st.w.now, timeout) &&
           IsRequest(env, n + 1, h1, agent, H1, st.w.now, timeout);
  }

  /** Whether there is a pair, from the last planned request. */
  lemma {:induction false} HedgesIff(env: Env, tryTime: int, planLength: nat, st: Stage)
    ensures planLength > 1 && ShouldHedge(env, tryTime, st) && HedgeTimeout(env, tryTime, st.w.now) > 0 <==>
              && planLength > 1 && env.mode.Auto? && st.err.Some?
              && IsTimeoutLike(st.err.value) && !IsProtocolMismatch(st.err.value)
              && tryTime >= 3_000_000_000 && env.deadline - st.w.now > 1_200_000_000
  {
  }

  /** What an attempt has when it has contacted the network, read off its requests. */
  ghost predicate Contacted(env: Env, n: nat, sent: seq<Sent>, r: Stage)
    requires |sent| == 1 || |sent| == 2 || |sent| == 4
  {
    && r.w.now == (if |sent| == 4 then Max(EndOf(sent[2]), EndOf(sent[3])) else EndOf(sent[|sent| - 1]))
    && (r.got.Some? <==> exists s :: IsChosen(sent, s))
    && (r.got.Some? ==> IsChosen(sent, r.got.value))
    && (r.got.None? ==>
          r.err.Some? && r.primary.Some? && IsAttemptError(env, n, sent, MoreTelling(r.primary.value, r.err.value)))
  }

  lemma {:induction false} PlannedIsContacted(env: Env, n: nat, sent: seq<Sent>, r: Stage)
    requires |sent| == 1 || |sent| == 2
    requires |sent| == 2 ==> sent[0].outcome.Broken?
    requires EndsWith(r, sent)
    ensures Contacted(env, n, sent, r)
  {
    if r.got.Some? {
      assert IsChosen(sent, r.got.value);
    }
  }

  lemma {:induction false} PairIsContacted(env: Env, n: nat, planned: seq<Sent>, h2: Sent, h1: Sent, r: Stage)
    requires |planned| == 2 && planned[0].outcome.Broken? && planned[1].outcome.Broken?
    requires r.w.now == Max(EndOf(h2), EndOf(h1)) && r.primary == Some(planned[0].outcome.err)
    requires h2.outcome.Broken? ==> h2.role == HedgeLoser
    requires h1.outcome.Broken? ==> h1.role == HedgeLoser
    requires r.got.Some? <==> h2.outcome.Answer? || h1.outcome.Answer?
    requires r.got.Some? ==> r.got.value in [h2, h1] && r.got.value.role == HedgeWinner && r.got.value.outcome.Answer?
    requires r.got.None? ==>
               r.err == Some(if env.raceH2First(n + 2) then MoreTelling(h2.outcome.err, h1.outcome.err)
                             else MoreTelling(h1.outcome.err, h2.outcome.err))
    ensures Contacted(env, n, planned + [h2, h1], r)
  {
    var sent := planned + [h2, h1];
    assert sent[2..] == [h2, h1] && sent[2] == h2 && sent[3] == h1;
    if r.got.Some? {
      assert IsChosen(sent, r.got.value);
    }
  }

  /** The planned requests, and the pair if they call for one. */
  lemma {:induction false} HedgeSends(
    env: Env, agent: string, tryTime: int, planLength: nat, n: nat, planned: seq<Sent>, st: Stage)
    returns (sent: seq<Sent>)
    requires |planned| == 1 || |planned| == 2
    requires |planned| == 2 ==> planned[0].outcome.Broken? && env.mode.Auto? && planLength == 2
    requires |planned| == 1 && env.mode.Auto? && planned[0].outcome.Broken? ==> !IsTimeoutLike(planned[0].outcome.err)
    requires |st.w.trace| == n + |planned|
    requires EndsWith(st, planned)
    ensures var r := Hedge(env, agent, tryTime, planLength, st);
            && planned <= sent && r.w.trace == st.w.trace + sent[|planned|..]
            && |sent| == (if |planned| == 2 && CallsForPair(env, tryTime, planned[1]) then 4 else |planned|)
            && (|sent| == 4 ==> IsPair(env, agent, tryTime, n + 2, EndOf(planned[1]), sent[2], sent[3]))
            && Contacted(env, n, sent, r)
  {
    HedgesIff(env, tryTime, planLength, st);
    if |planned| == 2 && CallsForPair(env, tryTime, planned[1]) {
      var h2, h1 := RaceSends(env, agent, tryTime, st);
      sent := planned + [h2, h1];
      assert sent[2..] == [h2, h1];
      PairIsContacted(env, n, planned, h2, h1, Hedge(env, agent, tryTime, planLength, st));
    } else {
      sent := planned;
      assert sent[|planned|..] == [] && st.w.trace + [] == st.w.trace;
      PlannedIsContacted(env, n, sent, st);
    }
  }

  lemma {:induction false} PlannedFit(
    env: Env, agent: string, plan: seq<Proto>, now: nat, tryTime: int, n: nat, planned: seq<Sent>, sent: seq<Sent>)
    requires |plan| == if env.mode.Auto? then 2 else 1
    requires ArePlanned(env, agent, plan, now, tryTime, n, planned) && IsTryTime(env, now, tryTime)
    requires planned <= sent
    requires |sent| == if |planned| == 2 && CallsForPair(env, tryTime, planned[1]) then 4 else |planned|
    requires |sent| == 4 ==> IsPair(env, agent, tryTime, n + 2, EndOf(planned[1]), sent[2], sent[3])
    ensures AreRequests(env, agent, plan, now, tryTime, n, sent)
  {
    assert sent[0] == planned[0] && (|planned| == 2 ==> sent[1] == planned[1]);
  }

  lemma {:induction false} PlannedAndPair(env: Env, agent: string, plan: seq<Proto>, w: World) returns (sent: seq<Sent>)
    requires |plan| == if env.mode.Auto? then 2 else 1
    ensures AreRequests(env, agent, plan, w.now, TryTime(env, w.now), |w.trace|, sent)
    ensures ContactWith(env, agent, plan, w).w.trace == w.trace + sent
    ensures Contacted(env, |w.trace|, sent, ContactWith(env, agent, plan, w))
  {
    var tryTime := TryTime(env, w.now);
    var planned := PlannedRequests(env, agent, plan, w);
    var st := TryFrom(env, agent, tryTime, w.now, plan, 0, Stage(w, None, None, None));
    TryTimeIs(env, w.now);
    sent := HedgeSends(env, agent, tryTime, |plan|, |w.trace|, planned, st);
    PlannedFit(env, agent, plan, w.now, tryTime, |w.trace|, planned, sent);
    OneAfterTheOther(w.trace, planned, sent);
  }

  lemma {:induction false} OneAfterTheOther(trace: seq<Sent>, planned: seq<Sent>, sent: seq<Sent>)
    requires planned <= sent
    ensures trace + planned + sent[|planned|..] == trace + sent
  {
    assert sent == planned + sent[|planned|..];
  }

  /** Main result: the requests of every attempt are exactly those that the configuration and the network call for, and
      it has an answer exactly when the last of them, or one of the pair, was answered. */
  lemma {:induction false} AttemptIsItsRequests(env: Env, agent: string, w: World) returns (sent: seq<Sent>)
    ensures var plan := Plan(Hear(env, w).memory, env.host, env.mode, w.now);
            AreRequests(env, agent, plan, w.now, TryTime(env, w.now), |w.trace|, sent)
    ensures Contact(env, agent, w).w.trace == w.trace + sent
    ensures Contacted(env, |w.trace|, sent, Contact(env, agent, w))
  {
    var v := Hear(env, w);
    sent := PlannedAndPair(env, agent, PlanOf(env, v), v);
  }

  // ----- The verdict on an attempt -----

  /** The answer to s can be used: read in time and in full, and below 400. */
  predicate IsUsable(s: Sent) {
    s.role != HedgeLoser && s.outcome.Answer? &&
    IsReadFrom(s, s.outcome.response) && s.outcome.response.status < 400
  }

  /** When the last request has ended. */
  function LastEnd(sent: seq<Sent>): nat
    requires |sent| == 1 || |sent| == 2 || |sent| == 4
  {
    if |sent| == 4 then Max(EndOf(sent[2]), EndOf(sent[3])) else EndOf(sent[|sent| - 1])
  }

  /** The attempt that began at this time goes on with this usable answer, and reading it ends at the given time. */
  predicate IsFetched(sent: seq<Sent>, s: Sent, start: nat, end: nat, r: Response, latencyMS: int)
    requires |sent| == 1 || |sent| == 2 || |sent| == 4
  {
    && IsChosen(sent, s) && IsUsable(s) && s.outcome == Answer(r)
    && end == Max(LastEnd(sent), s.at + r.bodyAfter) && latencyMS == (end - start) / 1_000_000
  }

  /** What is wrong with the answer that the attempt goes on with, or, without an answer, what broke its requests. */
  ghost predicate IsMissed(env: Env, n: nat, sent: seq<Sent>, e: FetchError)
    requires |sent| == 1 || |sent| == 2 || |sent| == 4
  {
    || (exists s :: IsChosen(sent, s) && IsErrorOf(s, e))
    || (e.Net? && IsAttemptError(env, n, sent, e.err))
  }

  ghost predicate IsVerdictOn(env: Env, n: nat, sent: seq<Sent>, start: nat, end: nat, verdict: Verdict)
    requires |sent| == 1 || |sent| == 2 || |sent| == 4
  {
    && (verdict.Fetched? <==> exists s :: IsChosen(sent, s) && IsUsable(s))
    && (verdict.Fetched? ==> exists s :: IsFetched(sent, s, start, end, verdict.response, verdict.latencyMS))
    && (verdict.Missed? ==> IsMissed(env, n, sent, verdict.err))
  }

  /** Main result: an attempt succeeds exactly when the answer it goes on with is usable; it then returns that response
      and how long it took, reading included, in whole milliseconds. Otherwise its error is what is wrong with that
      answer, or, without an answer, what broke its requests. */
  lemma {:induction false} AttemptVerdictIs(env: Env, agent: string, w: World) returns (sent: seq<Sent>)
    ensures var plan := Plan(Hear(env, w).memory, env.host, env.mode, w.now);
            AreRequests(env, agent, plan, w.now, TryTime(env, w.now), |w.trace|, sent)
    ensures var (v, verdict) := Attempt(env, agent, w);
            v.trace == w.trace + sent && IsVerdictOn(env, |w.trace|, sent, w.now, v.now, verdict)
  {
    sent := AttemptIsItsRequests(env, agent, w);
    VerdictIs(env, |w.trace|, sent, w.now, Contact(env, agent, w));
  }

  lemma {:induction false} VerdictIs(env: Env, n: nat, sent: seq<Sent>, start: nat, st: Stage)
    requires |sent| == 1 || |sent| == 2 || |sent| == 4
    requires |sent| == 4 ==> !(sent[2].role == HedgeWinner && sent[3].role == HedgeWinner)
    requires |sent| < 4 ==> sent[|sent| - 1].role == Planned
    requires Contacted(env, n, sent, st)
    ensures var (v, verdict) := Judge(start, st);
            v.trace == st.w.trace && IsVerdictOn(env, n, sent, start, v.now, verdict)
  {
    var (v, verdict) := Judge(start, st);
    if st.got.Some? {
      var s := st.got.value;
      assert verdict.Fetched? <==> IsUsable(s);
      assert verdict.Missed? ==> IsErrorOf(s, verdict.err);
      assert verdict.Fetched? ==> IsFetched(sent, s, start, v.now, verdict.response, verdict.latencyMS);
    }
  }

  /** A network in which both planned requests of an attempt hang and the third one is answered at once. */
  ghost predicate Hangs(env: Env, n: nat, timeout: NetError, r: Response) {
    && IsTimeoutLike(timeout) && !IsProtocolMismatch(timeout)
    && env.net(n).after > 20_000_000_000 && env.net(n).cutError == timeout
    && env.net(n + 1).after > 20_000_000_000 && env.net(n + 1).cutError == timeout
    && env.net(n + 2) == Reply(500_000_000, Answer(r), timeout)
    && env.net(n + 3) == Reply(500_000_000, Broken(timeout), timeout)
    && r.status == 200 && !r.challenge && r.bodyAfter <= 500_000_000 && r.bodyError.None?
  }

  /** Such an attempt of 20 s is saved by the pair: it succeeds with its third request, 17.5 s after it began. */
  lemma {:induction false} PairSavesAttempt(env: Env, agent: string, w: World, timeout: NetError, r: Response)
    requires env.mode.Auto? && env.tryTimeout == 20_000_000_000 && env.deadline == w.now + 20_000_000_000
    requires Hangs(env, |w.trace|, timeout, r)
    ensures var (v, verdict) := Attempt(env, agent, w);
            |v.trace| == |w.trace| + 4 && verdict == Fetched(r, 17_500) && v.now == w.now + 17_500_000_000
  {
    var sent := AttemptVerdictIs(env, agent, w);
    assert sent[0].took == 3_000_000_000 && sent[1].took == 14_000_000_000;
    assert |sent| == 4 && sent[2].role == HedgeWinner && sent[3].role == HedgeLoser;
    assert sent[2..] == [sent[2], sent[3]];
    assert IsChosen(sent, sent[2]) && IsUsable(sent[2]);
  }

  // ----- The whole call -----

  /** Some request since n was answered usably. */
  ghost predicate HasUsable(n: nat, trace: seq<Sent>) {
    exists k :: n <= k < |trace| && IsUsable(trace[k])
  }

  /** Of the requests of an attempt only the chosen one can be usable. */
  lemma {:induction false} UsableIsChosen(
    env: Env, agent: string, plan: seq<Proto>, now: nat, tryTime: int, n: nat, sent: seq<Sent>, i: nat)
    requires AreRequests(env, agent, plan, now, tryTime, n, sent)
    requires i < |sent| && IsUsable(sent[i])
    ensures IsChosen(sent, sent[i])
  {
    if |sent| == 4 && i >= 2 {
      assert sent[2..][i - 2] == sent[i];
    }
  }

  /** An attempt that misses has sent nothing that was answered usably, one that succeeds has. */
  lemma {:induction false} AttemptFindsUsable(env: Env, agent: string, w: World, n: nat)
    requires n <= |w.trace|
    ensures var (v, verdict) := Attempt(env, agent, w);
            && w.trace <= v.trace
            && (verdict.Missed? ==> (HasUsable(n, v.trace) ==> HasUsable(n, w.trace)))
  {
    var sent := AttemptVerdictIs(env, agent, w);
    var (v, verdict) := Attempt(env, agent, w);
    var plan := Plan(Hear(env, w).memory, env.host, env.mode, w.now);
    if verdict.Missed? && HasUsable(n, v.trace) {
      var k :| n <= k < |v.trace| && IsUsable(v.trace[k]);
      if k < |w.trace| {
        assert w.trace[k] == v.trace[k];
      } else {
        UsableIsChosen(env, agent, plan, w.now, TryTime(env, w.now), |w.trace|, sent, k - |w.trace|);
        assert false;
      }
    }
  }

  /** When the call fails, every attempt has missed: what all of these keep, the call keeps. */
  lemma {:induction false} RunMisses(c: Loop, w: World, u: nat, i: nat, lastErr: Option<FetchError>, P: World -> bool)
    requires forall a, v: World :: P(v) && c.attempt(a, Begin(v)).1.Missed? ==> P(c.attempt(a, Begin(v)).0)
    requires forall v: World, k: nat :: P(v) ==> P(Pause(v, k))
    requires P(w)
    ensures var r := RunFrom(c, w, u, i, lastErr); r.response.None? ==> P(r.w)
    decreases |c.agents| - u, c.attempts - i
  {
    if u < |c.agents| {
      if i >= c.attempts {
        RunMisses(c, w, u + 1, 0, lastErr, P);
      } else if c.deadline - w.now > 0 {
        var (w', verdict) := c.attempt(c.agents[u], Begin(w));
        if verdict.Missed? {
          if i < c.attempts - 1 {
            RunMisses(c, Pause(w', i), u, i + 1, Some(verdict.err), P);
          } else {
            RunMisses(c, w', u + 1, 0, Some(verdict.err), P);
          }
        }
      }
    }
  }

  /** Main result: a call returns a response exactly when one of its own requests, other than the losers of a pair, got
      a fully read answer below 400; a failed one says how long it took. */
  lemma {:induction false} FetchSucceedsIff(
    cfg: Config, agents: seq<string>, host: string, net: nat -> Reply, race: nat -> bool, others: Others, w: World)
    requires |agents| >= 1
    ensures var r := Fetch(cfg, agents, host, net, race, others, w);
            && (r.response.Some? <==> HasUsable(|w.trace|, r.w.trace))
            && (r.response.None? ==> r.latencyMS == (r.w.now - w.now) / 1_000_000)
  {
    var env := EnvOf(cfg, host, net, race, others, w.now);
    var c := LoopOf(env, agents, Attempts(cfg), w.now);
    var n := |w.trace|;
    var P := (v: World) => n <= |v.trace| && !HasUsable(n, v.trace);
    forall a, v: World | P(v) && c.attempt(a, Begin(v)).1.Missed? ensures P(c.attempt(a, Begin(v)).0) {
      AttemptFindsUsable(env, a, Begin(v), n);
    }
    RunMisses(c, w, 0, 0, None, P);
    FailureTakes(c, w, 0, 0, None);
    FetchReturns(cfg, agents, host, net, race, others, w);
    var r := Fetch(cfg, agents, host, net, race, others, w);
    if r.response.Some? {
      var s :| SentSince(n, r.w.trace, s) && IsReadFrom(s, r.response.value);
      var k :| n <= k < |r.w.trace| && r.w.trace[k] == s;
      assert IsUsable(r.w.trace[k]);
    }
  }

  /** A call that fails says how long it took, in whole milliseconds. */
  lemma {:induction false} FailureTakes(c: Loop, w: World, u: nat, i: nat, lastErr: Option<FetchError>)
    ensures var r := RunFrom(c, w, u, i, lastErr);
            r.response.None? ==> r.err.Some? && r.latencyMS == (r.w.now - c.startedAt) / 1_000_000
    decreases |c.agents| - u, c.attempts - i
  {
    if u < |c.agents| {
      if i >= c.attempts {
        FailureTakes(c, w, u + 1, 0, lastErr);
      } else if c.deadline - w.now > 0 {
        var (w', verdict) := c.attempt(c.agents[u], Begin(w));
        if verdict.Missed? {
          if i < c.attempts - 1 {
            FailureTakes(c, Pause(w', i), u, i + 1, Some(verdict.err));
          } else {
            FailureTakes(c, w', u + 1, 0, Some(verdict.err));
          }
        }
      }
    }
  }

  // ----- The two loops as one -----

  /** The call as one loop over all attempts: attempt a belongs to user agent a / attempts, and before another attempt
      with the same agent there is a pause, of 0.7 seconds more each time. */
  function Flat(c: Loop, w: World, a: nat, lastErr: Option<FetchError>): Result
    requires c.attempts > 0
    decreases |c.agents| * c.attempts - a
  {
    if a >= |c.agents| * c.attempts then GiveUp(c, w, lastErr, NoAttempt)
    else if w.now >= c.deadline then GiveUp(c, w, lastErr, DeadlinePassed)
    else
      AgentOf(a, c.attempts, |c.agents|);
      var (w', verdict) := c.attempt(c.agents[a / c.attempts], Begin(w));
      match verdict
      case Fetched(r, latency) => Result(w', Some(r), None, latency)
      case Missed(e) =>
        var last := a % c.attempts == c.attempts - 1;
        Flat(c, if last then w' else w'.(now := w'.now + 700_000_000 * (a % c.attempts + 1)), a + 1, Some(e))
  }

  lemma AgentOf(a: nat, attempts: nat, agents: nat)
    requires attempts > 0 && a < agents * attempts
    ensures a / attempts < agents
  {
    if a / attempts >= agents {
      AtLeast(a / attempts, agents, attempts);
    }
  }

  lemma AtLeast(x: nat, y: nat, z: nat)
    requires x >= y
    ensures x * z >= y * z
  {
  }

  lemma IndexOf(u: nat, i: nat, attempts: nat)
    requires i < attempts
    ensures (u * attempts + i) / attempts == u && (u * attempts + i) % attempts == i
  {
    var a := u * attempts + i;
    assert a == (a / attempts) * attempts + a % attempts;
    if a / attempts > u {
      AtLeast(a / attempts, u + 1, attempts);
    } else if a / attempts < u {
      AtLeast(u, a / attempts + 1, attempts);
    }
  }

  lemma NextAgent(u: nat, attempts: nat)
    ensures (u + 1) * attempts == u * attempts + attempts
  {
  }

  /** Main result: the loops over user agents and attempts are that one loop. */
  lemma {:induction false} LoopsAreOne(c: Loop, w: World, u: nat, i: nat, lastErr: Option<FetchError>)
    requires c.attempts > 0 && i <= c.attempts && u <= |c.agents| && (u == |c.agents| ==> i == 0)
    ensures RunFrom(c, w, u, i, lastErr) == Flat(c, w, u * c.attempts + i, lastErr)
    decreases |c.agents| - u, c.attempts - i
  {
    if u < |c.agents| {
      NextAgent(u, c.attempts);
      AtLeast(|c.agents|, u + 1, c.attempts);
      if i == c.attempts {
        LoopsAreOne(c, w, u + 1, 0, lastErr);
      } else if w.now < c.deadline {
        IndexOf(u, i, c.attempts);
        var (w', verdict) := c.attempt(c.agents[u], Begin(w));
        if verdict.Missed? {
          if i < c.attempts - 1 {
            LoopsAreOne(c, Pause(w', i), u, i + 1, Some(verdict.err));
          } else {
            LoopsAreOne(c, w', u + 1, 0, Some(verdict.err));
          }
        }
      }
    }
  }

  // ----- Settings -----

  /** Without wrap-around: the timeout is 20 s by default, the budget all tries together but at most 45 s, the attempts
      one more than the retries but at most six. */
  lemma {:induction false} SettingsMean(x: Settings, mode: Mode)
    requires 0 <= x.retries <= 1_000_000 && x.timeoutMS <= 1_000_000_000 && mode == NormalizeMode(x.httpMode)
    ensures ConfigOf(x).mode == mode
    ensures var t := if x.timeoutMS > 0 then x.timeoutMS else 20_000;
            && BudgetMS(ConfigOf(x)) == Min(t * (x.retries + 1), 45_000)
            && Attempts(ConfigOf(x)) == Min(x.retries + 1, 6) && TryTimeout(ConfigOf(x)) == t * 1_000_000
  {
    BudgetMeans(Config(x.timeoutMS, x.retries, mode));
    assert ConfigOf(x) == Config(x.timeoutMS, x.retries, mode);
  }

  lemma {:induction false} BudgetMeans(cfg: Config)
    requires 0 <= cfg.retries <= 1_000_000 && cfg.timeoutMS <= 1_000_000_000
    ensures var t := if cfg.timeoutMS > 0 then cfg.timeoutMS else 20_000;
            && BudgetMS(cfg) == Min(t * (cfg.retries + 1), 45_000) && Attempts(cfg) == Min(cfg.retries + 1, 6)
            && TryTimeout(cfg) == t * 1_000_000
  {
    var t := if cfg.timeoutMS > 0 then cfg.timeoutMS else 20_000;
    Products(t, cfg.retries + 1);
  }

  lemma Products(a: int, b: int)
    requires 1 <= a <= 1_000_000_000 && 1 <= b <= 1_000_001
    ensures 1 <= a * b <= 1_000_001_000_000_000
  {
    assert a * b >= 1 * b;
    assert a * b <= 1_000_000_000 * b;
  }

  predicate SameAgent(a: string, b: string) {
    Lower(Trim(a)) == Lower(b)
  }

  /** The configured user agent comes first; the default one is always among them, and never twice. */
  lemma {:induction false} AgentsMean(configured: string)
    ensures var r := Agents(configured);
            && r[0] == configured && |r| <= 2
            && (SameAgent(r[0], DEFAULT_AGENT) || r == [configured, DEFAULT_AGENT])
            && (|r| == 2 ==> !SameAgent(r[0], r[1]))
  {
  }
}
