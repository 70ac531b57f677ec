/** The fetch loop as the service runs it: local variables, a clock that goes on, a host memory that
    is marked in place. Its specification is FetchLoop.Fetch. */
module Fetcher {
  import opened Text
  import opened HostMemory
  import opened FetchLoop
  import FetchBounds
  import FetchOutcome
  import FetchTrace

  lemma RunStep(c: Loop, w: World, u: nat, i: nat, lastErr: Option<FetchError>, w': World, verdict: Verdict)
    requires u < |c.agents| && i < c.attempts && w.now < c.deadline
    requires c.attempt(c.agents[u], Begin(w)) == (w', verdict)
    ensures RunFrom(c, w, u, i, lastErr) ==
              if verdict.Fetched? then Result(w', Some(verdict.response), None, verdict.latencyMS)
              else RunFrom(c, if i < c.attempts - 1 then Pause(w', i) else w', u, i + 1, Some(verdict.err))
  {
  }

  class SubscriptionFetcher {
    var now: nat
    var trace: seq<Sent>
    var attempts: nat
    var log: seq<Entry>
    var looks: nat
    const store: Store

    constructor (now: nat)
      ensures this.now == now && fresh(store) && store.normalize == NormalizeHost
      ensures View() == World(now, map[], [], 0, [], 0)
    {
      this.now := now;
      trace, attempts, log, looks := [], 0, [], 0;
      store := new Store(NormalizeHost);
    }

    function View(): World
      reads this, store
    {
      World(now, store.states, trace, attempts, log, looks)
    }

    /** The host of the call is a normalised name, which the store keeps as it is. */
    predicate IsNormal(env: Env)
      reads this
    {
      store.normalize(env.host) == env.host
    }

    /** Taking the lock of the store: other calls may have marked it by then. */
    method Look(env: Env)
      modifies this`log, this`looks, store
      ensures View() == Hear(env, old(View()))
    {
      var marks := env.others(looks);
      store.Overhear(marks);
      log := log + Overheard(marks);
      looks := looks + 1;
    }

    method MarkSuccess(env: Env, proto: Proto)
      requires IsNormal(env)
      modifies this`log, this`looks, store
      ensures View() == Teach(env, old(View()), Succeeded(env.host, proto))
    {
      Look(env);
      store.Succeed(env.host, proto);
      log := log + [Own(Succeeded(env.host, proto))];
    }

    method MarkFailure(env: Env, proto: Proto, err: NetError)
      requires IsNormal(env)
      modifies this`log, this`looks, store
      ensures View() == Teach(env, old(View()), Failed(env.host, proto, err, old(now)))
    {
      Look(env);
      store.Fail(env.host, proto, err, now);
      log := log + [Own(Failed(env.host, proto, err, now))];
    }

    /** One request of the planned protocols, and the mark it leaves. */
    method TryProtocol(
      env: Env, agent: string, tryTime: int, stageStart: nat, plan: seq<Proto>, pi: nat, primary: Option<NetError>,
      ghost st: Stage)
      returns (got: Option<Sent>, err: Option<NetError>, primary': Option<NetError>)
      requires pi < |plan| && st.w == View() && st.primary == primary && IsNormal(env)
      modifies this, store
      ensures Stage(View(), got, err, primary') == TryOne(env, agent, tryTime, stageStart, plan, pi, st)
    {
      var timeout := tryTime;
      if env.mode.Auto? && |plan| > 1 {
        if pi == 0 {
          timeout := FirstBudget(tryTime);
        } else {
          timeout := SecondBudget(tryTime, env.deadline - now, now - stageStart);
        }
      }
      var s := Exchange(env, View(), agent, plan[pi], timeout, |trace|, Planned);
      now := s.at + s.took;
      trace := trace + [s];
      primary' := primary;
      match s.outcome
      case Answer(_) =>
        got, err := Some(s), None;
        MarkSuccess(env, plan[pi]);
      case Broken(e) =>
        got, err := None, Some(e);
        if pi == 0 {
          primary' := Some(e);
        }
        MarkFailure(env, plan[pi], e);
    }

    /** The loop over the protocols of one attempt. */
    method TryProtocols(env: Env, agent: string, tryTime: int, plan: seq<Proto>)
      returns (got: Option<Sent>, err: Option<NetError>, primary: Option<NetError>)
      requires IsNormal(env)
      modifies this, store
      ensures Stage(View(), got, err, primary) ==
                TryFrom(env, agent, tryTime, old(now), plan, 0, Stage(old(View()), None, None, None))
    {
      got, err, primary := None, None, None;
      var stageStart := now;
      var pi := 0;
      while pi < |plan|
        invariant 0 <= pi <= |plan|
        invariant TryFrom(env, agent, tryTime, stageStart, plan, 0, Stage(old(View()), None, None, None)) ==
                  TryFrom(env, agent, tryTime, stageStart, plan, pi, Stage(View(), got, err, primary))
      {
        got, err, primary := TryProtocol(env, agent, tryTime, stageStart, plan, pi, primary,
            Stage(View(), got, err, primary));
        if err.None? || !ShouldTryAlternate(env.mode, err.value) {
          return;
        }
        pi := pi + 1;
      }
    }

    /** Both protocols at once, as a last resort within the attempt. */
    method TryBoth(env: Env, agent: string, timeout: int, ghost st: Stage)
      returns (got: Option<Sent>, err: Option<NetError>)
      requires st.w == View() && IsNormal(env)
      modifies this, store
      ensures Stage(View(), got, err, st.primary) == Race(env, agent, timeout, st)
    {
      var n := |trace|;
      var h2 := Exchange(env, View(), agent, H2, timeout, n, HedgeLoser);
      var h1 := Exchange(env, View(), agent, H1, timeout, n + 1, HedgeLoser);
      now := Max(h2.at + h2.took, h1.at + h1.took);
      var first, second := h1, h2;
      if env.raceH2First(n) {
        first, second := h2, h1;
      }
      if first.outcome.Answer? {
        got, err := Some(first.(role := HedgeWinner)), None;
      } else if second.outcome.Answer? {
        got, err := Some(second.(role := HedgeWinner)), None;
      } else if ShouldPreferPrimary(first.outcome.err, second.outcome.err) {
        got, err := None, Some(first.outcome.err);
      } else {
        got, err := None, Some(second.outcome.err);
      }
      if got.Some? {
        if got.value.proto == H2 {
          h2 := got.value;
        } else {
          h1 := got.value;
        }
      }
      trace := trace + [h2, h1];
      if got.Some? {
        MarkSuccess(env, got.value.proto);
      }
    }

    method MaybeHedge(
      env: Env, agent: string, tryTime: int, planLength: nat, got: Option<Sent>, err: Option<NetError>,
      ghost st: Stage)
      returns (got': Option<Sent>, err': Option<NetError>)
      requires st == Stage(View(), got, err, st.primary) && IsNormal(env)
      modifies this, store
      ensures Stage(View(), got', err', st.primary) == Hedge(env, agent, tryTime, planLength, st)
    {
      got', err' := got, err;
      if planLength > 1 && ShouldHedge(env, tryTime, Stage(View(), got, err, None)) {
        var timeout := HedgeTimeout(env, tryTime, now);
        if timeout > 0 {
          got', err' := TryBoth(env, agent, timeout, st);
        }
      }
    }

    /** One attempt: the planned protocols, the hedged pair, the body and the status. */
    method TryOnce(env: Env, agent: string) returns (verdict: Verdict)
      requires IsNormal(env)
      modifies this, store
      ensures (View(), verdict) == Attempt(env, agent, old(View()))
    {
      var stageStart := now;
      var tryTime := env.tryTimeout;
      if env.deadline - now < tryTime {
        tryTime := env.deadline - now;
      }
      Look(env);
      var plan := PlanOf(env, View());
      var got, err, primary := TryProtocols(env, agent, tryTime, plan);
      ghost var tried := Stage(View(), got, err, primary);
      got, err := MaybeHedge(env, agent, tryTime, |plan|, got, err, tried);
      assert Stage(View(), got, err, primary) == Contact(env, agent, old(View()));
      verdict := Finish(stageStart, got, err, primary, Stage(View(), got, err, primary));
    }

    method Finish(stageStart: nat, got: Option<Sent>, err: Option<NetError>, primary: Option<NetError>, ghost st: Stage)
      returns (verdict: Verdict)
      requires st == Stage(View(), got, err, primary)
      requires got.Some? ==> got.value.outcome.Answer?
      requires got.None? ==> err.Some?
      modifies this
      ensures (View(), verdict) == Judge(stageStart, st)
    {
      if got.None? {
        var e := err.value;
        if primary.Some? && ShouldPreferPrimary(primary.value, e) {
          e := primary.value;
        }
        return Missed(Net(e));
      }
      var r := got.value.outcome.response;
      now := ReadUntil(got.value, r, now);
      if CutWhileReading(got.value, r) {
        verdict := Missed(Net(r.cutError));
      } else if r.bodyError.Some? {
        verdict := Missed(Net(r.bodyError.value));
      } else if r.status == 403 && r.challenge {
        verdict := Missed(CloudflareBlocked);
      } else if r.status >= 400 {
        verdict := Missed(HttpStatus(r.status));
      } else {
        verdict := Fetched(r, (now - stageStart) / MS);
      }
    }

    /** One attempt, seen from the loops around it. */
    method TryNext(ghost c: Loop, env: Env, agent: string) returns (verdict: Verdict)
      requires c == LoopOf(env, c.agents, c.attempts, c.startedAt) && IsNormal(env)
      modifies this, store
      ensures (View(), verdict) == c.attempt(agent, Begin(old(View())))
    {
      attempts := attempts + 1;
      verdict := TryOnce(env, agent);
    }

    /** The body of the attempts loop: an attempt and, before another one, a pause. */
    method Iterate(
      ghost c: Loop, env: Env, agent: string, tries: nat, ghost u: nat, i: nat, ghost lastErr: Option<FetchError>)
      returns (verdict: Verdict)
      requires c == LoopOf(env, c.agents, c.attempts, c.startedAt) && c.attempts == tries && IsNormal(env)
      requires u < |c.agents| && agent == c.agents[u] && i < tries && now < env.deadline
      modifies this, store
      ensures RunFrom(c, old(View()), u, i, lastErr) ==
                if verdict.Fetched? then Result(View(), Some(verdict.response), None, verdict.latencyMS)
                else RunFrom(c, View(), u, i + 1, Some(verdict.err))
    {
      verdict := TryNext(c, env, agent);
      ghost var tried := View();
      RunStep(c, old(View()), u, i, lastErr, tried, verdict);
      if verdict.Missed? && i < tries - 1 {
        now := now + PAUSE * (i + 1);
        assert View() == Pause(tried, i);
      }
    }

    /** The two outer loops. */
    method Run(ghost c: Loop, env: Env, agents: seq<string>, tries: nat, startedAt: nat)
      returns (response: Option<Response>, err: Option<FetchError>, latencyMS: int)
      requires c == LoopOf(env, agents, tries, startedAt) && IsNormal(env)
      modifies this, store
      ensures Result(View(), response, err, latencyMS) == RunFrom(c, old(View()), 0, 0, None)
    {
      var lastErr: Option<FetchError> := None;
      ghost var whole := RunFrom(c, View(), 0, 0, None);
      var u := 0;
      while u < |agents|
        invariant 0 <= u <= |agents|
        invariant whole == RunFrom(c, View(), u, 0, lastErr)
      {
        var i := 0;
        while i < tries
          invariant 0 <= i <= tries
          invariant whole == RunFrom(c, View(), u, i, lastErr)
        {
          if env.deadline - now <= 0 {
            if lastErr.None? {
              lastErr := Some(DeadlinePassed);
            }
            return None, lastErr, (now - startedAt) / MS;
          }
          var verdict := Iterate(c, env, agents[u], tries, u, i, lastErr);
          if verdict.Fetched? {
            return Some(verdict.response), None, verdict.latencyMS;
          }
          lastErr := Some(verdict.err);
          i := i + 1;
        }
        u := u + 1;
      }
      if lastErr.None? {
        lastErr := Some(NoAttempt);
      }
      return None, lastErr, (now - startedAt) / MS;
    }

    method FetchWith(
      cfg: Config, agents: seq<string>, host: string, net: nat -> Reply, raceH2First: nat -> bool, others: Others)
      returns (response: Option<Response>, err: Option<FetchError>, latencyMS: int)
      requires |agents| >= 1 && store.normalize(host) == host
      modifies this, store
      ensures Result(View(), response, err, latencyMS) ==
                Fetch(cfg, agents, host, net, raceH2First, others, old(View()))
      ensures response.Some? <==> err.None?
      ensures response.Some? <==> FetchTrace.HasUsable(|old(trace)|, trace)
      ensures TryTimeout(cfg) > 0 ==> now - old(now) <= FetchOutcome.TimeBound(cfg)
      ensures |agents| <= 2 ==> |trace| - |old(trace)| <= 48
    {
      var env := EnvOf(cfg, host, net, raceH2First, others, now);
      response, err, latencyMS := Run(LoopOf(env, agents, Attempts(cfg), now), env, agents, Attempts(cfg), now);
      FetchOutcome.FetchReturns(cfg, agents, host, net, raceH2First, others, old(View()));
      FetchTrace.FetchSucceedsIff(cfg, agents, host, net, raceH2First, others, old(View()));
      if TryTimeout(cfg) > 0 {
        FetchBounds.FetchTimeBound(cfg, agents, host, net, raceH2First, others, old(View()));
      }
      if |agents| <= 2 {
        FetchOutcome.FetchEffort(cfg, agents, host, net, raceH2First, others, old(View()));
      }
    }

    /** fetchSubscriptionContent: reads the mode, the user agents and the host from the settings, then runs the loop. */
    method FetchSubscriptionContent(x: Settings, net: nat -> Reply, raceH2First: nat -> bool, others: Others)
      returns (response: Option<Response>, err: Option<FetchError>, latencyMS: int)
      requires forall h :: store.normalize(store.normalize(h)) == store.normalize(h)
      modifies this, store
      ensures Result(View(), response, err, latencyMS) ==
                Fetch(ConfigOf(x), Agents(x.userAgent), store.normalize(x.hostname), net, raceH2First, others,
                    old(View()))
      ensures response.Some? <==> err.None?
      ensures response.Some? <==> FetchTrace.HasUsable(|old(trace)|, trace)
      ensures TryTimeout(ConfigOf(x)) > 0 ==> now - old(now) <= FetchOutcome.TimeBound(ConfigOf(x))
      ensures |trace| - |old(trace)| <= 48
    {
      var cfg, agents, host := ConfigOf(x), Agents(x.userAgent), store.normalize(x.hostname);
      response, err, latencyMS := FetchWith(cfg, agents, host, net, raceH2First, others);
    }
  }

  /** A service begins with an empty memory, and its store normalises names as it has to. */
  method NewFetcher(now: nat) returns (fetcher: SubscriptionFetcher)
    ensures fresh(fetcher) && fetcher.View() == World(now, map[], [], 0, [], 0)
    ensures forall h :: fetcher.store.normalize(fetcher.store.normalize(h)) == fetcher.store.normalize(h)
  {
    fetcher := new SubscriptionFetcher(now);
    forall h ensures NormalizeHost(NormalizeHost(h)) == NormalizeHost(h) {
      NormalHostsAreKept(h);
    }
  }
}
