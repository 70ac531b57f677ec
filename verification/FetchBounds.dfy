/** What the fetch loop keeps: its time bound, its request count, its answer and its memory. */
module FetchBounds {
  import opened Text
  import opened HostMemory
  import opened FetchLoop

  /** How far one attempt may overrun the deadline. */
  function Slack(env: Env): nat {
    if env.mode.Auto? then FIRST_CAP else 0
  }

  const LONGEST_PAUSE: nat := 3_500_000_000

  // ----- Time -----

  /** The stage ends by the limit, and so will the reading of its answer. */
  ghost predicate EndsBy(st: Stage, limit: int) {
    st.w.now <= limit &&
    (st.got.Some? ==> st.got.value.timeout > 0 && st.got.value.at + st.got.value.timeout <= limit)
  }

  /** Even when the floor of the first try or the exhausted budget of the second one overruns the
      deadline, the two together overrun it by no more than the cap of the first try. */
  lemma TwoTries(tryTime: int, remaining: int, took: int)
    requires 0 < tryTime <= remaining
    requires 0 <= took <= FirstBudget(tryTime)
    ensures 0 < FirstBudget(tryTime) <= remaining + FIRST_CAP
    ensures 0 < SecondBudget(tryTime, remaining - took, took)
    ensures took + SecondBudget(tryTime, remaining - took, took) <= remaining + FIRST_CAP
  {
  }

  lemma TryOneTime(env: Env, agent: string, tryTime: int, stageStart: nat, plan: seq<Proto>, pi: nat, st: Stage)
    requires pi < |plan|
    requires ProtoTimeout(env, tryTime, stageStart, |plan|, pi, st.w.now) > 0
    ensures var t := ProtoTimeout(env, tryTime, stageStart, |plan|, pi, st.w.now);
            var r := TryOne(env, agent, tryTime, stageStart, plan, pi, st);
            st.w.now <= r.w.now <= st.w.now + t && EndsBy(r, st.w.now + t)
  {
  }

  lemma TriesTime(env: Env, agent: string, tryTime: int, now: nat, plan: seq<Proto>, st: Stage)
    requires st.w.now == now && st.got.None?
    requires 0 < tryTime <= env.deadline - now
    requires |plan| == if env.mode.Auto? then 2 else 1
    ensures EndsBy(TryFrom(env, agent, tryTime, now, plan, 0, st), env.deadline + Slack(env))
  {
    TwoTries(tryTime, env.deadline - now, 0);
    TryOneTime(env, agent, tryTime, now, plan, 0, st);
    var first := TryOne(env, agent, tryTime, now, plan, 0, st);
    if GoesOn(env, first) {
      assert env.mode.Auto?;
      var took := first.w.now - now;
      TwoTries(tryTime, env.deadline - now, took);
      TryOneTime(env, agent, tryTime, now, plan, 1, first);
      var second := TryOne(env, agent, tryTime, now, plan, 1, first);
      assert TryFrom(env, agent, tryTime, now, plan, 1, first) ==
             if GoesOn(env, second) then TryFrom(env, agent, tryTime, now, plan, 2, second) else second;
    }
  }

  lemma RaceTime(env: Env, agent: string, timeout: int, st: Stage)
    requires timeout > 0
    ensures var r := Race(env, agent, timeout, st);
            st.w.now <= r.w.now <= st.w.now + timeout && EndsBy(r, st.w.now + timeout)
  {
  }

  lemma HedgeTime(env: Env, agent: string, tryTime: int, planLength: nat, st: Stage, limit: int)
    requires EndsBy(st, limit) && env.deadline <= limit
    ensures EndsBy(Hedge(env, agent, tryTime, planLength, st), limit)
  {
    var timeout := HedgeTimeout(env, tryTime, st.w.now);
    if timeout > 0 {
      RaceTime(env, agent, timeout, st);
    }
  }

  lemma JudgeTime(stageStart: nat, st: Stage, limit: int)
    requires st.got.Some? ==> st.got.value.outcome.Answer?
    requires st.got.None? ==> st.err.Some?
    requires EndsBy(st, limit)
    ensures Judge(stageStart, st).0.now <= limit
  {
  }

  lemma ContactTime(env: Env, agent: string, w: World)
    requires env.tryTimeout > 0 && w.now < env.deadline
    ensures EndsBy(Contact(env, agent, w), env.deadline + Slack(env))
  {
    var v := Hear(env, w);
    PlannedTime(env, agent, PlanOf(env, v), v);
  }

  lemma PlannedTime(env: Env, agent: string, plan: seq<Proto>, w: World)
    requires env.tryTimeout > 0 && w.now < env.deadline
    requires |plan| == if env.mode.Auto? then 2 else 1
    ensures EndsBy(ContactWith(env, agent, plan, w), env.deadline + Slack(env))
  {
    var tryTime := TryTime(env, w.now);
    var start := Stage(w, None, None, None);
    TriesTime(env, agent, tryTime, w.now, plan, start);
    HedgeTime(env, agent, tryTime, |plan|, TryFrom(env, agent, tryTime, w.now, plan, 0, start),
        env.deadline + Slack(env));
  }

  lemma AttemptTime(env: Env, agent: string, w: World)
    requires env.tryTimeout > 0 && w.now < env.deadline
    ensures Attempt(env, agent, w).0.now <= env.deadline + Slack(env)
  {
    ContactTime(env, agent, w);
    JudgeTime(w.now, Contact(env, agent, w), env.deadline + Slack(env));
  }

  lemma {:induction false} RunTime(c: Loop, w: World, u: nat, i: nat, lastErr: Option<FetchError>, limit: int)
    requires forall a, v: World :: v.now < c.deadline ==> c.attempt(a, v).0.now <= limit
    requires c.attempts <= 6 && c.deadline <= limit
    requires w.now <= limit + LONGEST_PAUSE
    ensures RunFrom(c, w, u, i, lastErr).w.now <= limit + LONGEST_PAUSE
    decreases |c.agents| - u, c.attempts - i
  {
    if u < |c.agents| {
      if i >= c.attempts {
        RunTime(c, w, u + 1, 0, lastErr, limit);
      } else if c.deadline - w.now > 0 {
        var (w', verdict) := c.attempt(c.agents[u], Begin(w));
        if verdict.Missed? {
          if i < c.attempts - 1 {
            RunTime(c, Pause(w', i), u, i + 1, Some(verdict.err), limit);
          } else {
            RunTime(c, w', u + 1, 0, Some(verdict.err), limit);
          }
        }
      }
    }
  }

  /** Main result: for every configuration whose timeout fits a time.Duration, and whatever the network
      does, the call takes at most its budget, one overrun of 3000 ms (none with a fixed protocol) and
      one pause of 3500 ms. */
  lemma FetchTimeBound(
    cfg: Config, agents: seq<string>, host: string, net: nat -> Reply, race: nat -> bool, others: Others, w: World)
    requires TryTimeout(cfg) > 0
    ensures Fetch(cfg, agents, host, net, race, others, w).w.now - w.now
              <= BudgetMS(cfg) * MS + (if cfg.mode.Auto? then 3000 * MS else 0) + 3500 * MS
  {
    var env := EnvOf(cfg, host, net, race, others, w.now);
    var c := LoopOf(env, agents, Attempts(cfg), w.now);
    forall a, v: World | v.now < c.deadline ensures c.attempt(a, v).0.now <= env.deadline + Slack(env) {
      AttemptTime(env, a, v);
    }
    RunTime(c, w, 0, 0, None, env.deadline + Slack(env));
  }

  // ----- Attempts and requests -----

  /** The attempts the loops have not begun yet. */
  function AttemptsLeft(c: Loop, u: nat, i: nat): nat
    decreases |c.agents| - u, c.attempts - i
  {
    if u >= |c.agents| then 0
    else if i >= c.attempts then AttemptsLeft(c, u + 1, 0)
    else c.attempts - i + AttemptsLeft(c, u + 1, 0)
  }

  /** The loops give up only past the deadline or after every attempt. */
  lemma {:induction false} RunGivesUp(c: Loop, w: World, u: nat, i: nat, lastErr: Option<FetchError>)
    requires forall a, v: World :: c.attempt(a, v).0.attempts == v.attempts
    ensures var r := RunFrom(c, w, u, i, lastErr);
            && r.w.attempts <= w.attempts + AttemptsLeft(c, u, i)
            && (r.response.None? <==> r.err.Some?)
            && (r.err.Some? ==> r.w.now >= c.deadline || r.w.attempts == w.attempts + AttemptsLeft(c, u, i))
    decreases |c.agents| - u, c.attempts - i
  {
    if u < |c.agents| {
      if i >= c.attempts {
        RunGivesUp(c, w, u + 1, 0, lastErr);
      } else if c.deadline - w.now > 0 {
        var (w', verdict) := c.attempt(c.agents[u], Begin(w));
        if verdict.Missed? {
          if i < c.attempts - 1 {
            RunGivesUp(c, Pause(w', i), u, i + 1, Some(verdict.err));
          } else {
            RunGivesUp(c, w', u + 1, 0, Some(verdict.err));
          }
        }
      }
    }
  }

  /** What every attempt keeps, the whole call keeps. */
  lemma {:induction false} RunKeeps(c: Loop, w: World, u: nat, i: nat, lastErr: Option<FetchError>, P: World -> bool)
    requires forall a, v: World :: P(v) ==> P(c.attempt(a, Begin(v)).0)
    requires forall v, k :: P(v) ==> P(Pause(v, k))
    requires P(w)
    ensures P(RunFrom(c, w, u, i, lastErr).w)
    decreases |c.agents| - u, c.attempts - i
  {
    if u < |c.agents| {
      if i >= c.attempts {
        RunKeeps(c, w, u + 1, 0, lastErr, P);
      } else if c.deadline - w.now > 0 {
        var (w', verdict) := c.attempt(c.agents[u], Begin(w));
        if verdict.Missed? {
          if i < c.attempts - 1 {
            RunKeeps(c, Pause(w', i), u, i + 1, Some(verdict.err), P);
          } else {
            RunKeeps(c, w', u + 1, 0, Some(verdict.err), P);
          }
        }
      }
    }
  }

  /** A returned response, or error, is the verdict of an attempt: what is true of it when the attempt ends stays true.
      P is what the worlds of this call have in common. */
  lemma {:induction false} RunVerdict(
    c: Loop, w: World, u: nat, i: nat, lastErr: Option<FetchError>,
    P: World -> bool, Good: (World, Response) -> bool, Real: (World, FetchError) -> bool)
    requires forall a, v: World :: P(v) ==>
               var (v', verdict) := c.attempt(a, Begin(v));
               P(v') && if verdict.Fetched? then Good(v', verdict.response) else Real(v', verdict.err)
    requires forall a, v: World, e :: P(v) && Real(v, e) ==> Real(c.attempt(a, Begin(v)).0, e)
    requires forall v: World, k: nat :: P(v) ==> P(Pause(v, k))
    requires forall v: World, k: nat, e :: Real(v, e) ==> Real(Pause(v, k), e)
    requires P(w)
    requires if lastErr.Some? then Real(w, lastErr.value) else u < |c.agents| && i < c.attempts && w.now < c.deadline
    ensures var r := RunFrom(c, w, u, i, lastErr);
            (r.response.Some? ==> Good(r.w, r.response.value)) && (r.err.Some? ==> Real(r.w, r.err.value))
    decreases |c.agents| - u, c.attempts - i
  {
    if u < |c.agents| {
      if i >= c.attempts {
        RunVerdict(c, w, u + 1, 0, lastErr, P, Good, Real);
      } else if c.deadline - w.now > 0 {
        var (w', verdict) := c.attempt(c.agents[u], Begin(w));
        if verdict.Missed? {
          if i < c.attempts - 1 {
            RunVerdict(c, Pause(w', i), u, i + 1, Some(verdict.err), P, Good, Real);
          } else {
            RunVerdict(c, w', u + 1, 0, Some(verdict.err), P, Good, Real);
          }
        }
      }
    }
  }
}
