/** What a fetch returns, how many requests it sends, and how sharp its time bound is. */
module FetchOutcome {
  import opened Text
  import opened HostMemory
  import opened FetchLoop
  import opened FetchBounds
  import opened FetchHistory

  // ----- Requests -----

  lemma {:induction false} TriesSend(
    env: Env, agent: string, tryTime: int, stageStart: nat, plan: seq<Proto>, pi: nat, st: Stage)
    requires pi <= |plan|
    ensures |TryFrom(env, agent, tryTime, stageStart, plan, pi, st).w.trace| <= |st.w.trace| + |plan| - pi
    ensures TryFrom(env, agent, tryTime, stageStart, plan, pi, st).w.attempts == st.w.attempts
    decreases |plan| - pi
  {
    if pi < |plan| {
      var next := TryOne(env, agent, tryTime, stageStart, plan, pi, st);
      assert |next.w.trace| == |st.w.trace| + 1;
      if GoesOn(env, next) {
        TriesSend(env, agent, tryTime, stageStart, plan, pi + 1, next);
      }
    }
  }

  /** An attempt sends at most one request with a fixed protocol, and at most four otherwise. */
  lemma AttemptSends(env: Env, agent: string, w: World)
    ensures var v := Attempt(env, agent, w).0;
            |v.trace| <= |w.trace| + (if env.mode.Auto? then 4 else 1) && v.attempts == w.attempts
  {
    var v := Hear(env, w);
    PlannedSends(env, agent, PlanOf(env, v), v);
  }

  lemma PlannedSends(env: Env, agent: string, plan: seq<Proto>, w: World)
    requires |plan| == if env.mode.Auto? then 2 else 1
    ensures var st := ContactWith(env, agent, plan, w);
            |st.w.trace| <= |w.trace| + (if env.mode.Auto? then 4 else 1) && st.w.attempts == w.attempts
  {
    var tryTime := TryTime(env, w.now);
    var start := Stage(w, None, None, None);
    TriesSend(env, agent, tryTime, w.now, plan, 0, start);
    var tried := TryFrom(env, agent, tryTime, w.now, plan, 0, start);
    var st := ContactWith(env, agent, plan, w);
    assert |st.w.trace| <= |tried.w.trace| + if env.mode.Auto? then 2 else 0;
    assert st.w.attempts == w.attempts;
  }

  /** How many requests one attempt sends at most. */
  function PerAttempt(mode: Mode): nat {
    if mode.Auto? then 4 else 1
  }

  lemma {:induction false} RequestsPerAttempt(env: Env, c: Loop, w: World)
    requires c == LoopOf(env, c.agents, c.attempts, c.startedAt)
    ensures var r := RunFrom(c, w, 0, 0, None);
            r.w.attempts >= w.attempts && |r.w.trace| - |w.trace| <= PerAttempt(env.mode) * (r.w.attempts - w.attempts)
  {
    var per := PerAttempt(env.mode);
    var P := (v: World) => v.attempts >= w.attempts && |v.trace| - |w.trace| <= per * (v.attempts - w.attempts);
    forall a, v: World | P(v) ensures P(c.attempt(a, Begin(v)).0) {
      AttemptSends(env, a, Begin(v));
      OneMore(per, v.attempts - w.attempts);
    }
    RunKeeps(c, w, 0, 0, None, P);
  }

  lemma OneMore(per: nat, n: int)
    ensures per * (n + 1) == per * n + per
  {
  }

  lemma {:induction false} AttemptsMade(env: Env, c: Loop, w: World)
    requires c == LoopOf(env, c.agents, c.attempts, c.startedAt) && 1 <= |c.agents| <= 2 && c.attempts >= 1
    ensures var r, all := RunFrom(c, w, 0, 0, None), |c.agents| * c.attempts;
            r.w.attempts <= w.attempts + all &&
            (r.err.Some? ==> r.w.now >= c.deadline || r.w.attempts == w.attempts + all)
  {
    forall a, v: World ensures c.attempt(a, v).0.attempts == v.attempts {
      AttemptSends(env, a, v);
    }
    RunGivesUp(c, w, 0, 0, None);
    AllAttempts(c);
  }

  lemma FewRequests(mode: Mode, agents: nat, attempts: nat, made: nat)
    requires agents <= 2 && attempts <= 6 && made <= agents * attempts
    ensures PerAttempt(mode) * made <= 48
  {
    assert agents * attempts <= 2 * attempts;
  }

  lemma {:induction false} LoopEffort(env: Env, c: Loop, w: World)
    requires c == LoopOf(env, c.agents, c.attempts, c.startedAt)
    requires 1 <= |c.agents| <= 2 && 1 <= c.attempts <= 6
    ensures var r, all := RunFrom(c, w, 0, 0, None), |c.agents| * c.attempts;
            && w.attempts <= r.w.attempts <= w.attempts + all
            && |r.w.trace| - |w.trace| <= PerAttempt(env.mode) * (r.w.attempts - w.attempts) <= 48
            && (r.err.Some? ==> r.w.now >= c.deadline || r.w.attempts == w.attempts + all)
  {
    RequestsPerAttempt(env, c, w);
    AttemptsMade(env, c, w);
    FewRequests(env.mode, |c.agents|, c.attempts, RunFrom(c, w, 0, 0, None).w.attempts - w.attempts);
  }

  /** Main result: at most 48 requests, and giving up only past the deadline or after every attempt. */
  lemma {:induction false} FetchEffort(
    cfg: Config, agents: seq<string>, host: string, net: nat -> Reply, race: nat -> bool, others: Others, w: World)
    requires 1 <= |agents| <= 2
    ensures var r, all := Fetch(cfg, agents, host, net, race, others, w), |agents| * Attempts(cfg);
            && 1 <= Attempts(cfg) <= 6
            && w.attempts <= r.w.attempts <= w.attempts + all
            && |r.w.trace| - |w.trace| <= PerAttempt(cfg.mode) * (r.w.attempts - w.attempts) <= 48
            && (r.err.Some? ==> r.w.now >= w.now + BudgetMS(cfg) * MS || r.w.attempts == w.attempts + all)
  {
    var env := EnvOf(cfg, host, net, race, others, w.now);
    var c := LoopOf(env, agents, Attempts(cfg), w.now);
    LoopEffort(env, c, w);
  }

  lemma {:induction false} AllAttempts(c: Loop)
    requires 1 <= |c.agents| <= 2 && c.attempts >= 1
    ensures AttemptsLeft(c, 0, 0) == |c.agents| * c.attempts
  {
    assert AttemptsLeft(c, 2, 0) == 0;
    assert AttemptsLeft(c, 1, 0) == if |c.agents| == 2 then c.attempts else 0;
  }

  // ----- Answers -----

  /** s is a request from index n of the trace on. */
  ghost predicate SentSince(n: nat, trace: seq<Sent>, s: Sent) {
    exists k :: n <= k < |trace| && trace[k] == s
  }

  /** r is the answer to s, which was not raced out, and was fully read. */
  predicate IsReadFrom(s: Sent, r: Response) {
    s.role != HedgeLoser && s.outcome == Answer(r) && !CutWhileReading(s, r) && r.bodyError.None?
  }

  /** The answer comes from a request since n, and may be used. */
  ghost predicate GoodAnswer(n: nat, v: World, r: Response) {
    r.status < 400 && exists s :: SentSince(n, v.trace, s) && IsReadFrom(s, r)
  }

  /** What is wrong with the outcome of request s. */
  predicate IsErrorOf(s: Sent, e: FetchError) {
    match s.outcome
    case Broken(x) => e == Net(x)
    case Answer(r) =>
      if CutWhileReading(s, r) then e == Net(r.cutError)
      else if r.bodyError.Some? then e == Net(r.bodyError.value)
      else if r.status == 403 && r.challenge then e == CloudflareBlocked
      else r.status >= 400 && e == HttpStatus(r.status)
  }

  /** The error of a request since n, as opposed to the two that the loop falls back on. */
  ghost predicate RealError(n: nat, v: World, e: FetchError) {
    exists s :: SentSince(n, v.trace, s) && IsErrorOf(s, e)
  }

  ghost predicate BrokeWith(n: nat, trace: seq<Sent>, e: NetError) {
    exists s :: SentSince(n, trace, s) && s.outcome == Broken(e)
  }

  /** What a stage holds comes from requests since n. */
  ghost predicate StageTied(n: nat, st: Stage) {
    && n <= |st.w.trace|
    && (st.got.Some? ==> SentSince(n, st.w.trace, st.got.value) && st.got.value.role != HedgeLoser)
    && (st.err.Some? ==> BrokeWith(n, st.w.trace, st.err.value))
    && (st.primary.Some? ==> BrokeWith(n, st.w.trace, st.primary.value))
  }

  lemma {:induction false} SentMore(n: nat, trace: seq<Sent>, more: seq<Sent>, s: Sent)
    requires SentSince(n, trace, s)
    ensures SentSince(n, trace + more, s)
  {
    var k :| n <= k < |trace| && trace[k] == s;
    assert (trace + more)[k] == s;
  }

  lemma {:induction false} BrokeMore(n: nat, trace: seq<Sent>, more: seq<Sent>, e: NetError)
    requires BrokeWith(n, trace, e)
    ensures BrokeWith(n, trace + more, e)
  {
    var s :| SentSince(n, trace, s) && s.outcome == Broken(e);
    SentMore(n, trace, more, s);
  }

  lemma {:induction false} JustSent(n: nat, trace: seq<Sent>, more: seq<Sent>, i: nat)
    requires n <= |trace| && i < |more|
    ensures SentSince(n, trace + more, more[i])
  {
    assert (trace + more)[|trace| + i] == more[i];
  }

  lemma {:induction false} TryOneTied(
    env: Env, agent: string, tryTime: int, stageStart: nat, plan: seq<Proto>, pi: nat, st: Stage, n: nat)
    requires pi < |plan| && StageTied(n, st)
    ensures StageTied(n, TryOne(env, agent, tryTime, stageStart, plan, pi, st))
  {
    var timeout := ProtoTimeout(env, tryTime, stageStart, |plan|, pi, st.w.now);
    var s := Exchange(env, st.w, agent, plan[pi], timeout, |st.w.trace|, Planned);
    JustSent(n, st.w.trace, [s], 0);
    if st.primary.Some? {
      BrokeMore(n, st.w.trace, [s], st.primary.value);
    }
    assert TryOne(env, agent, tryTime, stageStart, plan, pi, st).w.trace == st.w.trace + [s];
  }

  lemma {:induction false} TriesTied(
    env: Env, agent: string, tryTime: int, stageStart: nat, plan: seq<Proto>, pi: nat, st: Stage, n: nat)
    requires StageTied(n, st)
    ensures StageTied(n, TryFrom(env, agent, tryTime, stageStart, plan, pi, st))
    decreases |plan| - pi
  {
    if pi < |plan| {
      TryOneTied(env, agent, tryTime, stageStart, plan, pi, st, n);
      var next := TryOne(env, agent, tryTime, stageStart, plan, pi, st);
      if GoesOn(env, next) {
        TriesTied(env, agent, tryTime, stageStart, plan, pi + 1, next, n);
      }
    }
  }

  lemma {:induction false} RaceTied(env: Env, agent: string, timeout: int, st: Stage, n: nat)
    requires StageTied(n, st)
    ensures StageTied(n, Race(env, agent, timeout, st))
  {
    var r := Race(env, agent, timeout, st);
    var h2, h1, _ := RaceLesson(env, agent, timeout, st);
    var pair := [h2, h1];
    assert r.w.trace == st.w.trace + pair;
    JustSent(n, st.w.trace, pair, 0);
    JustSent(n, st.w.trace, pair, 1);
    if st.primary.Some? {
      BrokeMore(n, st.w.trace, pair, st.primary.value);
    }
  }

  lemma {:induction false} HedgeTied(env: Env, agent: string, tryTime: int, planLength: nat, st: Stage, n: nat)
    requires StageTied(n, st)
    ensures StageTied(n, Hedge(env, agent, tryTime, planLength, st))
  {
    RaceTied(env, agent, HedgeTimeout(env, tryTime, st.w.now), st, n);
  }

  lemma {:induction false} PlannedTied(env: Env, agent: string, plan: seq<Proto>, w: World, n: nat)
    requires plan != [] && n <= |w.trace|
    ensures StageTied(n, ContactWith(env, agent, plan, w))
  {
    var tryTime := TryTime(env, w.now);
    var start := Stage(w, None, None, None);
    TriesTied(env, agent, tryTime, w.now, plan, 0, start, n);
    HedgeTied(env, agent, tryTime, |plan|, TryFrom(env, agent, tryTime, w.now, plan, 0, start), n);
  }

  /** The verdict on a stage is about a request since n. */
  ghost predicate IsVerdict(n: nat, v: World, verdict: Verdict) {
    match verdict
    case Fetched(r, _) => GoodAnswer(n, v, r)
    case Missed(e) => RealError(n, v, e)
  }

  lemma {:induction false} JudgeTied(stageStart: nat, st: Stage, n: nat)
    requires st.got.Some? ==> st.got.value.outcome.Answer?
    requires st.got.None? ==> st.err.Some?
    requires StageTied(n, st)
    ensures var (v, verdict) := Judge(stageStart, st); v.trace == st.w.trace && IsVerdict(n, v, verdict)
  {
    var (v, verdict) := Judge(stageStart, st);
    if st.got.Some? {
      var s := st.got.value;
      assert verdict.Fetched? ==> IsReadFrom(s, verdict.response);
      assert verdict.Missed? ==> IsErrorOf(s, verdict.err);
    } else {
      assert BrokeWith(n, v.trace, verdict.err.err);
      var s :| SentSince(n, v.trace, s) && s.outcome == Broken(verdict.err.err);
      assert IsErrorOf(s, verdict.err);
    }
  }

  lemma {:induction false} AttemptVerdict(env: Env, agent: string, w: World, n: nat)
    requires n <= |w.trace|
    ensures var (v, verdict) := Attempt(env, agent, w);
            w.trace <= v.trace && IsVerdict(n, v, verdict)
  {
    var heard := Hear(env, w);
    PlannedTied(env, agent, PlanOf(env, heard), heard, n);
    JudgeTied(w.now, Contact(env, agent, w), n);
    assert w.trace[|w.trace|..] == [] && w.log[|w.log|..] == [];
    AttemptTeaches(env, agent, w, w);
  }

  lemma {:induction false} RealErrorStays(n: nat, v: World, v': World, e: FetchError)
    requires v.trace <= v'.trace && RealError(n, v, e)
    ensures RealError(n, v', e)
  {
    var s :| SentSince(n, v.trace, s) && IsErrorOf(s, e);
    SentMore(n, v.trace, v'.trace[|v.trace|..], s);
    assert v'.trace == v.trace + v'.trace[|v.trace|..];
  }

  lemma BudgetIsPositive(cfg: Config)
    ensures 0 < BudgetMS(cfg) <= 45000
  {
  }

  /** Main result: a call returns either a fully read response below 400 to a request that it sent itself, or what was
      wrong with a request that it sent itself. The fallback errors of the loop are never returned. */
  lemma {:induction false} FetchReturns(
    cfg: Config, agents: seq<string>, host: string, net: nat -> Reply, race: nat -> bool, others: Others, w: World)
    requires |agents| >= 1
    ensures var r := Fetch(cfg, agents, host, net, race, others, w);
            && (r.response.Some? <==> r.err.None?)
            && (r.response.Some? ==> GoodAnswer(|w.trace|, r.w, r.response.value))
            && (r.err.Some? ==> RealError(|w.trace|, r.w, r.err.value))
  {
    var env := EnvOf(cfg, host, net, race, others, w.now);
    var c := LoopOf(env, agents, Attempts(cfg), w.now);
    var n := |w.trace|;
    var P := (v: World) => n <= |v.trace|;
    var Good := (v, r) => GoodAnswer(n, v, r);
    var Real := (v, e) => RealError(n, v, e);
    forall a, v: World | P(v)
      ensures var (v', verdict) := c.attempt(a, Begin(v));
              P(v') && if verdict.Fetched? then Good(v', verdict.response) else Real(v', verdict.err)
    {
      AttemptVerdict(env, a, Begin(v), n);
    }
    forall a, v: World, e | P(v) && Real(v, e) ensures Real(c.attempt(a, Begin(v)).0, e) {
      AttemptVerdict(env, a, Begin(v), n);
      RealErrorStays(n, v, c.attempt(a, Begin(v)).0, e);
    }
    forall a, v: World ensures c.attempt(a, v).0.attempts == v.attempts {
      AttemptSends(env, a, v);
    }
    BudgetIsPositive(cfg);
    RunVerdict(c, w, 0, 0, None, P, Good, Real);
    RunGivesUp(c, w, 0, 0, None);
  }

  // ----- How sharp the time bound is -----

  /** The bound of the call, as a duration. */
  function TimeBound(cfg: Config): int {
    BudgetMS(cfg) * MS + (if cfg.mode.Auto? then 3000 * MS else 0) + 3500 * MS
  }

  const DROP := NetError(
    false, false, false, false, false, false, false, false, false, true, false, false, false, false, false)

  function Dropped(after: nat): Reply {
    Reply(after, Broken(DROP), DROP)
  }

  /** With connections dropped after a and b, an automatic attempt takes a + b and sends nothing else. */
  lemma {:induction false} DroppedAttempt(env: Env, agent: string, w: World, a: nat, b: nat)
    requires env.mode.Auto? && w.now < env.deadline
    requires var n := |w.trace|; env.net(n) == Dropped(a) && env.net(n + 1) == Dropped(b)
    requires a <= FirstBudget(TryTime(env, w.now))
    requires var t := SecondBudget(TryTime(env, w.now), env.deadline - w.now - a, a); t > 0 ==> b <= t
    ensures var (v, verdict) := Attempt(env, agent, w);
            && verdict.Missed? && v.now == w.now + a + b && |v.trace| == |w.trace| + 2
  {
    var v := Hear(env, w);
    DroppedPlan(env, agent, PlanOf(env, v), v, a, b);
  }

  lemma {:induction false} DroppedPlan(env: Env, agent: string, plan: seq<Proto>, w: World, a: nat, b: nat)
    requires env.mode.Auto? && w.now < env.deadline && |plan| == 2
    requires var n := |w.trace|; env.net(n) == Dropped(a) && env.net(n + 1) == Dropped(b)
    requires a <= FirstBudget(TryTime(env, w.now))
    requires var t := SecondBudget(TryTime(env, w.now), env.deadline - w.now - a, a); t > 0 ==> b <= t
    ensures var st := ContactWith(env, agent, plan, w);
            && st.got.None? && st.w.now == w.now + a + b && |st.w.trace| == |w.trace| + 2
  {
    var tryTime := TryTime(env, w.now);
    var first := TryOne(env, agent, tryTime, w.now, plan, 0, Stage(w, None, None, None));
    var second := TryOne(env, agent, tryTime, w.now, plan, 1, first);
    assert TryFrom(env, agent, tryTime, w.now, plan, 1, first) ==
           TryFrom(env, agent, tryTime, w.now, plan, 2, second) == second;
    assert ContactWith(env, agent, plan, w) == second;
  }

  lemma HedgeMovesOn(env: Env, agent: string, tryTime: int, planLength: nat, st: Stage)
    ensures Hedge(env, agent, tryTime, planLength, st).w.now >= st.w.now
  {
  }

  lemma JudgeMovesOn(stageStart: nat, st: Stage)
    requires st.got.Some? ==> st.got.value.outcome.Answer?
    requires st.got.None? ==> st.err.Some?
    ensures Judge(stageStart, st).0.now >= st.w.now
  {
  }

  lemma AttemptMovesOn(env: Env, agent: string, w: World)
    ensures Attempt(env, agent, w).0.now >= w.now
  {
    var v := Hear(env, w);
    var plan := PlanOf(env, v);
    var tryTime := TryTime(env, v.now);
    var start := Stage(v, None, None, None);
    TriesMoveOn(env, agent, tryTime, v.now, plan, 0, start);
    var tried := TryFrom(env, agent, tryTime, v.now, plan, 0, start);
    HedgeMovesOn(env, agent, tryTime, |plan|, tried);
    JudgeMovesOn(w.now, Contact(env, agent, w));
  }

  lemma {:induction false} TriesMoveOn(
    env: Env, agent: string, tryTime: int, stageStart: nat, plan: seq<Proto>, pi: nat, st: Stage)
    ensures TryFrom(env, agent, tryTime, stageStart, plan, pi, st).w.now >= st.w.now
    decreases |plan| - pi
  {
    if pi < |plan| {
      var next := TryOne(env, agent, tryTime, stageStart, plan, pi, st);
      if GoesOn(env, next) {
        TriesMoveOn(env, agent, tryTime, stageStart, plan, pi + 1, next);
      }
    }
  }

  /** The clock never goes back, so the call ends no earlier than its first attempt. */
  lemma EndsAfterFirstAttempt(c: Loop, env: Env, w: World)
    requires c == LoopOf(env, c.agents, c.attempts, c.startedAt)
    requires |c.agents| >= 1 && c.attempts >= 1 && w.now < c.deadline
    ensures RunFrom(c, w, 0, 0, None).w.now >= Attempt(env, c.agents[0], Begin(w)).0.now
  {
    var (w', verdict) := Attempt(env, c.agents[0], Begin(w));
    var P := (v: World) => v.now >= w'.now;
    forall a, v: World | P(v) ensures P(c.attempt(a, Begin(v)).0) {
      AttemptMovesOn(env, a, Begin(v));
    }
    if verdict.Missed? {
      if c.attempts > 1 {
        RunKeeps(c, Pause(w', 0), 0, 1, Some(verdict.err), P);
      } else {
        RunKeeps(c, w', 1, 0, Some(verdict.err), P);
      }
    }
  }

  /** The first attempt lasts as long as the network likes when the try's timeout is not positive:
      http.Client takes such a timeout for none at all. */
  lemma UnlimitedAttempt(env: Env, agent: string, w: World, long: nat)
    requires env.tryTimeout <= 0 && w.now < env.deadline
    requires var n := |w.trace|;
             if env.mode.Auto? then env.net(n) == Dropped(0) && env.net(n + 1) == Dropped(long)
             else env.net(n) == Dropped(long)
    ensures Attempt(env, agent, w).0.now == w.now + long
  {
    if env.mode.Auto? {
      DroppedAttempt(env, agent, w, 0, long);
    } else {
      var v := Hear(env, w);
      var plan := PlanOf(env, v);
      var tryTime := TryTime(env, v.now);
      var first := TryOne(env, agent, tryTime, v.now, plan, 0, Stage(v, None, None, None));
      assert TryFrom(env, agent, tryTime, v.now, plan, 0, Stage(v, None, None, None)) == first;
      assert ContactWith(env, agent, plan, v) == first;
    }
  }

  lemma Unbounded(
    cfg: Config, agents: seq<string>, host: string, race: nat -> bool, others: Others, w: World, long: nat)
    returns (net: nat -> Reply)
    requires TryTimeout(cfg) <= 0 && |agents| >= 1
    ensures Fetch(cfg, agents, host, net, race, others, w).w.now >= w.now + long
  {
    var n := |w.trace|;
    net := k => if cfg.mode.Auto? && k == n then Dropped(0) else Dropped(long);
    var env := EnvOf(cfg, host, net, race, others, w.now);
    var c := LoopOf(env, agents, Attempts(cfg), w.now);
    BudgetIsPositive(cfg);
    UnlimitedAttempt(env, agents[0], Begin(w), long);
    EndsAfterFirstAttempt(c, env, w);
  }

  /** Main result: the time bound holds for all networks exactly when the configured timeout, in
      nanoseconds, still fits a time.Duration as a positive number. */
  lemma TimeBoundIff(cfg: Config, agents: seq<string>, host: string)
    requires |agents| >= 1
    ensures (forall net: nat -> Reply, race: nat -> bool, others: Others, w: World ::
               Fetch(cfg, agents, host, net, race, others, w).w.now - w.now <= TimeBound(cfg))
            <==> TryTimeout(cfg) > 0
  {
    if TryTimeout(cfg) > 0 {
      forall net: nat -> Reply, race: nat -> bool, others: Others, w: World
        ensures Fetch(cfg, agents, host, net, race, others, w).w.now - w.now <= TimeBound(cfg)
      {
        FetchTimeBound(cfg, agents, host, net, race, others, w);
      }
    } else {
      BudgetIsPositive(cfg);
      var race := (k: nat) => false;
      var others: Others := k => [];
      var w := World(0, map[], [], 0, [], 0);
      var net := Unbounded(cfg, agents, host, race, others, w, TimeBound(cfg) + 1);
      assert Fetch(cfg, agents, host, net, race, others, w).w.now - w.now > TimeBound(cfg);
    }
  }

  /** Every timeout up to 292 years fits; the next millisecond does not. */
  lemma TimeoutsThatFit(cfg: Config)
    ensures cfg.timeoutMS <= 9_223_372_036_854 ==> TryTimeout(cfg) > 0
    ensures cfg.timeoutMS == 9_223_372_036_855 ==> TryTimeout(cfg) <= 0
  {
  }

  // ----- The bound is reached -----

  const SLOW := Config(20000, 5, Auto)

  /** How long the requests of attempt i take: four attempts use up the budget but for three seconds,
      the fifth overruns it by three. */
  function SlowWaits(i: int): (nat, nat) {
    if i == 0 then (3_000_000_000, 20_000_000_000)
    else if i == 1 then (3_000_000_000, 9_000_000_000)
    else if i == 4 then (3_000_000_000, 3_000_000_000)
    else (0, 0)
  }

  /** When attempt i begins. */
  function SlowStart(i: int): int {
    if i == 0 then 0
    else if i == 1 then 23_700_000_000
    else if i == 2 then 37_100_000_000
    else if i == 3 then 39_200_000_000
    else if i == 4 then 42_000_000_000
    else 51_500_000_000
  }

  function SlowReply(k: int): Reply {
    Dropped(if k % 2 == 0 then SlowWaits(k / 2).0 else SlowWaits(k / 2).1)
  }

  lemma SlowBudgets(i: nat)
    requires i < 5
    ensures var (a, b) := SlowWaits(i);
            var remaining := 45_000_000_000 - SlowStart(i);
            var tryTime := Min(20_000_000_000, remaining);
            var t := SecondBudget(tryTime, remaining - a, a);
            && remaining > 0 && a <= FirstBudget(tryTime) && (t > 0 ==> b <= t)
            && SlowStart(i) + a + b + PAUSE * (i + 1) == SlowStart(i + 1)
  {
    assert i == 0 || i == 1 || i == 2 || i == 3 || i == 4;
  }

  ghost predicate SlowSetting(c: Loop, env: Env, n: nat) {
    && c == LoopOf(env, c.agents, 6, c.startedAt) && |c.agents| >= 1
    && env.mode.Auto? && env.tryTimeout == 20_000_000_000 && env.deadline == c.startedAt + 45_000_000_000
    && forall k: nat :: env.net(k) == SlowReply(k - n)
  }

  lemma SlowAttempt(c: Loop, env: Env, n: nat, w: World, i: nat)
    requires SlowSetting(c, env, n) && i < 5
    requires w.now == c.startedAt + SlowStart(i) && |w.trace| == n + 2 * i
    ensures var (w', verdict) := c.attempt(c.agents[0], Begin(w));
            && w.now < c.deadline && verdict.Missed?
            && Pause(w', i).now == c.startedAt + SlowStart(i + 1) && |w'.trace| == n + 2 * (i + 1)
  {
    var (a, b) := SlowWaits(i);
    SlowBudgets(i);
    assert env.net(|w.trace|) == Dropped(a) && env.net(|w.trace| + 1) == Dropped(b);
    DroppedAttempt(env, c.agents[0], Begin(w), a, b);
  }

  lemma {:induction false} SlowRun(c: Loop, env: Env, n: nat, w: World, i: nat, lastErr: Option<FetchError>)
    requires SlowSetting(c, env, n) && i <= 5
    requires w.now == c.startedAt + SlowStart(i) && |w.trace| == n + 2 * i
    ensures RunFrom(c, w, 0, i, lastErr).w.now == c.startedAt + 51_500_000_000
    decreases 5 - i
  {
    if i < 5 {
      SlowAttempt(c, env, n, w, i);
      var (w', verdict) := c.attempt(c.agents[0], Begin(w));
      SlowRun(c, env, n, Pause(w', i), i + 1, Some(verdict.err));
    }
  }

  /** The bound cannot be improved: some network makes a call take exactly 45000 + 3000 + 3500 ms. */
  lemma {:induction false} TimeBoundIsReached(
    agents: seq<string>, host: string, race: nat -> bool, others: Others, w: World) returns (net: nat -> Reply)
    requires |agents| >= 1
    ensures TimeBound(SLOW) == 51500 * MS
    ensures Fetch(SLOW, agents, host, net, race, others, w).w.now - w.now == TimeBound(SLOW)
  {
    var n := |w.trace|;
    net := k => SlowReply(k - n);
    var env := EnvOf(SLOW, host, net, race, others, w.now);
    SlowRun(LoopOf(env, agents, 6, w.now), env, n, w, 0, None);
  }
}
