/** The subscription fetch loop: user agents, attempts, protocols and a hedged pair under one deadline
    (fetchSubscriptionContent in server/internal/service/target_service.go). */
module FetchLoop {
  import opened Text
  import opened HostMemory
  import opened Int64

  datatype Config = Config(timeoutMS: int, retries: int, mode: Mode)

  function TimeoutMS(cfg: Config): int {
    if cfg.timeoutMS <= 0 then 20000 else cfg.timeoutMS
  }

  /** The budget of the whole call, in milliseconds. */
  function BudgetMS(cfg: Config): int {
    var wanted := Wrap64(TimeoutMS(cfg) * Wrap64(cfg.retries + 1));
    var positive := if wanted <= 0 then TimeoutMS(cfg) else wanted;
    if positive > 45000 then 45000 else positive
  }

  function Attempts(cfg: Config): int {
    var wanted := Wrap64(cfg.retries + 1);
    if wanted <= 0 then 1 else if wanted > 6 then 6 else wanted
  }

  /** The configured timeout of one try, as a time.Duration. */
  function TryTimeout(cfg: Config): int {
    Wrap64(TimeoutMS(cfg) * MS)
  }

  const DEFAULT_AGENT :=
    "Mozilla/5.0 (Windows NT 10.0; Win64; x64) AppleWebKit/537.36 (KHTML, like Gecko) Chrome/122.0.0.0 Safari/537.36"

  /** The configured user agent, then the default one unless it is the same. */
  function Agents(configured: string): (r: seq<string>)
    ensures 1 <= |r| <= 2 && r[0] == configured
    ensures |r| == 2 ==> r[1] == DEFAULT_AGENT
  {
    if Lower(Trim(configured)) == Lower(DEFAULT_AGENT) then [configured] else [configured, DEFAULT_AGENT]
  }

  datatype FetchError = Net(err: NetError) | DeadlinePassed | CloudflareBlocked | HttpStatus(code: int) | NoAttempt

  /** An HTTP response. The body is complete, or fails with bodyError, bodyAfter after the request
      started; cutError is what reading reports when the client's timer fires first. */
  datatype Response = Response(
    status: int, challenge: bool, bodyAfter: nat, bodyError: Option<NetError>, cutError: NetError)

  datatype Outcome = Answer(response: Response) | Broken(err: NetError)

  /** How the network meets one request: when it reacts and with what; cutError is the error of a
      client whose timer fires first. */
  datatype Reply = Reply(after: nat, outcome: Outcome, cutError: NetError)

  datatype Role = Planned | HedgeWinner | HedgeLoser

  /** A request the service sent, for how long it was allowed to run and what came of it. */
  datatype Sent = Sent(agent: string, proto: Proto, at: nat, timeout: int, took: nat, outcome: Outcome, role: Role)

  /** A mark on the host memory, by this call or by another one that runs at the same time. */
  datatype Entry = Own(mark: Mark) | Other(mark: Mark)

  /** The clock, the host memory, the requests sent and the attempts begun so far; all marks on the memory so far, and
      how often this call has looked at it. */
  datatype World = World(now: nat, memory: Memory, trace: seq<Sent>, attempts: nat, log: seq<Entry>, looks: nat)

  /** Which marks other calls make before this call looks at the memory for the n-th time. */
  type Others = nat -> seq<Mark>

  /** What one call works with. net answers the requests in the order they are sent;
      raceH2First says which answer of a hedged pair is received first. */
  datatype Env = Env(
    tryTimeout: int, deadline: int, mode: Mode, host: string,
    net: nat -> Reply, raceH2First: nat -> bool, others: Others)

  function Overheard(marks: seq<Mark>): (r: seq<Entry>)
    ensures |r| == |marks|
  {
    seq(|marks|, i requires 0 <= i < |marks| => Other(marks[i]))
  }

  /** Taking the lock of the memory: by then other calls may have marked it. */
  function Hear(env: Env, w: World): World {
    var marks := env.others(w.looks);
    w.(memory := Replay(w.memory, marks), log := w.log + Overheard(marks), looks := w.looks + 1)
  }

  function Teach(env: Env, w: World, k: Mark): World {
    var v := Hear(env, w);
    v.(memory := Apply(v.memory, k), log := v.log + [Own(k)])
  }

  function Min(a: int, b: int): int { if a < b then a else b }
  function Max(a: int, b: int): int { if a < b then b else a }

  /** http.Client enforces a positive timeout and knows no other. */
  function Exchange(env: Env, w: World, agent: string, proto: Proto, timeout: int, index: nat, role: Role): Sent {
    var reply := env.net(index);
    if timeout > 0 && reply.after > timeout
    then Sent(agent, proto, w.now, timeout, timeout, Broken(reply.cutError), role)
    else Sent(agent, proto, w.now, timeout, reply.after, reply.outcome, role)
  }

  predicate ShouldTryAlternate(mode: Mode, e: NetError) {
    && mode.Auto?
    && (e.http2 || e.goAway || e.streamError || IsTimeoutLike(e) ||
        e.connectionReset || e.transportBroken || IsConnectionDrop(e))
  }

  predicate ShouldPreferPrimary(primary: NetError, fallback: NetError) {
    (primary.awaitingHeaders && fallback.malformedResponse) ||
    (primary.contextDeadlineExceeded && fallback.transportBroken)
  }

  const FIRST_CAP := 3_000_000_000
  const FLOOR := 1_500_000_000
  const HEDGE_ROOM := 1_200_000_000
  const PAUSE := 700_000_000

  function FirstBudget(tryTime: int): int {
    Max(Min(tryTime, FIRST_CAP), FLOOR)
  }

  function SecondBudget(tryTime: int, remaining: int, elapsed: int): int {
    var rest := if remaining > elapsed then remaining - elapsed else remaining;
    if rest > 0 && rest < tryTime then rest else tryTime
  }

  function ProtoTimeout(env: Env, tryTime: int, stageStart: nat, planLength: nat, pi: nat, now: nat): int {
    if env.mode.Auto? && planLength > 1 then
      if pi == 0 then FirstBudget(tryTime) else SecondBudget(tryTime, env.deadline - now, now - stageStart)
    else tryTime
  }

  /** Where one attempt stands: the answered request if there is one, else the current error. */
  datatype Stage = Stage(w: World, got: Option<Sent>, err: Option<NetError>, primary: Option<NetError>)

  function Turn(w: World, later: nat, sent: seq<Sent>): World {
    w.(now := later, trace := w.trace + sent)
  }

  function TryOne(env: Env, agent: string, tryTime: int, stageStart: nat, plan: seq<Proto>, pi: nat, st: Stage): Stage
    requires pi < |plan|
  {
    var timeout := ProtoTimeout(env, tryTime, stageStart, |plan|, pi, st.w.now);
    var s := Exchange(env, st.w, agent, plan[pi], timeout, |st.w.trace|, Planned);
    var later := s.at + s.took;
    match s.outcome
    case Answer(_) =>
      Stage(Teach(env, Turn(st.w, later, [s]), Succeeded(env.host, plan[pi])), Some(s), None, st.primary)
    case Broken(e) =>
      Stage(Teach(env, Turn(st.w, later, [s]), Failed(env.host, plan[pi], e, later)),
            None, Some(e), if pi == 0 then Some(e) else st.primary)
  }

  predicate GoesOn(env: Env, st: Stage) {
    st.err.Some? && ShouldTryAlternate(env.mode, st.err.value)
  }

  function TryFrom(env: Env, agent: string, tryTime: int, stageStart: nat, plan: seq<Proto>, pi: nat, st: Stage): Stage
    decreases |plan| - pi
  {
    if pi >= |plan| then st
    else
      var next := TryOne(env, agent, tryTime, stageStart, plan, pi, st);
      if GoesOn(env, next) then TryFrom(env, agent, tryTime, stageStart, plan, pi + 1, next) else next
  }

  predicate ShouldHedge(env: Env, tryTime: int, st: Stage) {
    && st.err.Some? && env.mode.Auto? && !IsProtocolMismatch(st.err.value) && IsTimeoutLike(st.err.value)
    && tryTime >= FIRST_CAP
    && env.deadline - st.w.now > HEDGE_ROOM
  }

  function HedgeTimeout(env: Env, tryTime: int, now: nat): int {
    Min(Max(tryTime / 2, FLOOR), env.deadline - now)
  }

  /** Both protocols at once; the call goes on when both have ended, with the first answer received. */
  function Race(env: Env, agent: string, timeout: int, st: Stage): Stage {
    var n := |st.w.trace|;
    var h2 := Exchange(env, st.w, agent, H2, timeout, n, HedgeLoser);
    var h1 := Exchange(env, st.w, agent, H1, timeout, n + 1, HedgeLoser);
    var later := Max(h2.at + h2.took, h1.at + h1.took);
    var first, second := if env.raceH2First(n) then h2 else h1, if env.raceH2First(n) then h1 else h2;
    if first.outcome.Broken? && second.outcome.Broken? then
      var e :=
        if ShouldPreferPrimary(first.outcome.err, second.outcome.err) then first.outcome.err else second.outcome.err;
      Stage(Turn(st.w, later, [h2, h1]), None, Some(e), st.primary)
    else
      var winner := if first.outcome.Answer? then first else second;
      var h2' := if winner.proto == H2 then h2.(role := HedgeWinner) else h2;
      var h1' := if winner.proto == H1 then h1.(role := HedgeWinner) else h1;
      Stage(Teach(env, Turn(st.w, later, [h2', h1']), Succeeded(env.host, winner.proto)),
            Some(if winner.proto == H2 then h2' else h1'), None, st.primary)
  }

  function Hedge(env: Env, agent: string, tryTime: int, planLength: nat, st: Stage): Stage {
    if planLength > 1 && ShouldHedge(env, tryTime, st) then
      var timeout := HedgeTimeout(env, tryTime, st.w.now);
      if timeout > 0 then Race(env, agent, timeout, st) else st
    else st
  }

  datatype Verdict = Fetched(response: Response, latencyMS: int) | Missed(err: FetchError)

  predicate CutWhileReading(s: Sent, r: Response) {
    s.timeout > 0 && r.bodyAfter > s.timeout
  }

  function ReadUntil(s: Sent, r: Response, now: nat): nat {
    Max(now, s.at + if CutWhileReading(s, r) then s.timeout else r.bodyAfter)
  }

  /** The end of an attempt: read the body, then judge the status. */
  function Judge(stageStart: nat, st: Stage): (World, Verdict)
    requires st.got.Some? ==> st.got.value.outcome.Answer?
    requires st.got.None? ==> st.err.Some?
  {
    match st.got
    case None =>
      var e := st.err.value;
      var shown := if st.primary.Some? && ShouldPreferPrimary(st.primary.value, e) then st.primary.value else e;
      (st.w, Missed(Net(shown)))
    case Some(s) =>
      var r := s.outcome.response;
      var later := ReadUntil(s, r, st.w.now);
      var w := st.w.(now := later);
      if CutWhileReading(s, r) then (w, Missed(Net(r.cutError)))
      else if r.bodyError.Some? then (w, Missed(Net(r.bodyError.value)))
      else if r.status == 403 && r.challenge then (w, Missed(CloudflareBlocked))
      else if r.status >= 400 then (w, Missed(HttpStatus(r.status)))
      else (w, Fetched(r, (later - stageStart) / MS))
  }

  lemma StageIsDecided(env: Env, agent: string, tryTime: int, stageStart: nat, plan: seq<Proto>, pi: nat, st: Stage)
    requires pi < |plan|
    ensures var r := TryFrom(env, agent, tryTime, stageStart, plan, pi, st);
            (r.got.Some? ==> r.got.value.outcome.Answer? && r.err.None?) && (r.got.None? ==> r.err.Some?)
    decreases |plan| - pi
  {
    var next := TryOne(env, agent, tryTime, stageStart, plan, pi, st);
    if GoesOn(env, next) && pi + 1 < |plan| {
      StageIsDecided(env, agent, tryTime, stageStart, plan, pi + 1, next);
    }
  }

  function TryTime(env: Env, now: nat): int {
    Min(env.tryTimeout, env.deadline - now)
  }

  /** The plan of an attempt that has taken the lock of the memory. */
  function PlanOf(env: Env, w: World): (plan: seq<Proto>)
    ensures |plan| == if env.mode.Auto? then 2 else 1
  {
    Plan(w.memory, env.host, env.mode, w.now)
  }

  /** Everything an attempt does on the network, once it has its plan. */
  function ContactWith(env: Env, agent: string, plan: seq<Proto>, w: World): (r: Stage)
    requires plan != []
    ensures r.got.Some? ==> r.got.value.outcome.Answer?
    ensures r.got.None? ==> r.err.Some?
  {
    var tryTime := TryTime(env, w.now);
    StageIsDecided(env, agent, tryTime, w.now, plan, 0, Stage(w, None, None, None));
    Hedge(env, agent, tryTime, |plan|, TryFrom(env, agent, tryTime, w.now, plan, 0, Stage(w, None, None, None)))
  }

  function Contact(env: Env, agent: string, w: World): (r: Stage)
    ensures r.got.Some? ==> r.got.value.outcome.Answer?
    ensures r.got.None? ==> r.err.Some?
  {
    var v := Hear(env, w);
    ContactWith(env, agent, PlanOf(env, v), v)
  }

  function Attempt(env: Env, agent: string, w: World): (World, Verdict) {
    Judge(w.now, Contact(env, agent, w))
  }

  /** What the call returns. */
  datatype Result = Result(w: World, response: Option<Response>, err: Option<FetchError>, latencyMS: int)

  /** The two outer loops, over user agents and attempts, for any way of making one attempt. */
  datatype Loop = Loop(
    agents: seq<string>, attempts: nat, deadline: int, startedAt: nat,
    attempt: (string, World) -> (World, Verdict))

  function GiveUp(c: Loop, w: World, lastErr: Option<FetchError>, otherwise: FetchError): Result {
    Result(w, None, Some(if lastErr.Some? then lastErr.value else otherwise), (w.now - c.startedAt) / MS)
  }

  function Pause(w: World, i: nat): World {
    w.(now := w.now + PAUSE * (i + 1))
  }

  function Begin(w: World): World {
    w.(attempts := w.attempts + 1)
  }

  /** The rest of the call from attempt i with user agent u on. */
  function RunFrom(c: Loop, w: World, u: nat, i: nat, lastErr: Option<FetchError>): Result
    decreases |c.agents| - u, c.attempts - i
  {
    if u >= |c.agents| then GiveUp(c, w, lastErr, NoAttempt)
    else if i >= c.attempts then RunFrom(c, w, u + 1, 0, lastErr)
    else if c.deadline - w.now <= 0 then GiveUp(c, w, lastErr, DeadlinePassed)
    else
      var (w', verdict) := c.attempt(c.agents[u], Begin(w));
      match verdict
      case Fetched(r, latency) => Result(w', Some(r), None, latency)
      case Missed(e) =>
        if i < c.attempts - 1
        then RunFrom(c, Pause(w', i), u, i + 1, Some(e))
        else RunFrom(c, w', u + 1, 0, Some(e))
  }

  function EnvOf(
    cfg: Config, host: string, net: nat -> Reply, raceH2First: nat -> bool, others: Others, now: nat): Env
  {
    Env(TryTimeout(cfg), now + BudgetMS(cfg) * MS, cfg.mode, host, net, raceH2First, others)
  }

  function LoopOf(env: Env, agents: seq<string>, attempts: nat, startedAt: nat): Loop {
    Loop(agents, attempts, env.deadline, startedAt, (agent, w) => Attempt(env, agent, w))
  }

  /** fetchSubscriptionContent as a function of the configuration, the network, the marks of other calls and the world
      it starts in. */
  function Fetch(
    cfg: Config, agents: seq<string>, host: string, net: nat -> Reply, raceH2First: nat -> bool, others: Others,
    w: World): Result
  {
    RunFrom(LoopOf(EnvOf(cfg, host, net, raceH2First, others, w.now), agents, Attempts(cfg), w.now), w, 0, 0, None)
  }

  /** What the service finds in the configuration of a target and in its endpoint. */
  datatype Settings = Settings(timeoutMS: int, retries: int, httpMode: string, userAgent: string, hostname: string)

  function ConfigOf(x: Settings): Config {
    Config(x.timeoutMS, x.retries, NormalizeMode(x.httpMode))
  }
}
