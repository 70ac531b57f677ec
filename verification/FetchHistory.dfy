/** What a fetch leaves behind: every request is accounted for, and the host memory is exactly what
    its requests taught it. */
module FetchHistory {
  import opened Text
  import opened HostMemory
  import opened FetchLoop
  import opened FetchBounds

  /** What one request teaches: planned requests are marked either way, hedged ones only when they win. */
  function Lesson(host: string, s: Sent): seq<Mark> {
    match s.role
    case Planned =>
      (match s.outcome
       case Answer(_) => [Succeeded(host, s.proto)]
       case Broken(e) => [Failed(host, s.proto, e, s.at + s.took)])
    case HedgeWinner => [Succeeded(host, s.proto)]
    case HedgeLoser => []
  }

  function Lessons(host: string, trace: seq<Sent>): seq<Mark> {
    if trace == [] then [] else Lessons(host, trace[..|trace| - 1]) + Lesson(host, trace[|trace| - 1])
  }

  function Marks(log: seq<Entry>): (r: seq<Mark>)
    ensures |r| == |log|
  {
    seq(|log|, i requires 0 <= i < |log| => log[i].mark)
  }

  /** The marks that this call made itself. */
  function OwnMarks(log: seq<Entry>): seq<Mark> {
    if log == [] then []
    else
      var last := log[|log| - 1];
      OwnMarks(log[..|log| - 1]) + if last.Own? then [last.mark] else []
  }

  /** The memory of world v is what it was in w, updated by all marks made since; those of this call among them are
      the lessons of its requests since, in their order. */
  ghost predicate Learned(host: string, w: World, v: World) {
    && w.trace <= v.trace && w.log <= v.log
    && v.memory == Replay(w.memory, Marks(v.log[|w.log|..]))
    && OwnMarks(v.log[|w.log|..]) == Lessons(host, v.trace[|w.trace|..])
  }

  lemma {:induction false} ReplayMore(m: Memory, log: seq<Mark>, k: Mark)
    ensures Replay(m, log + [k]) == Apply(Replay(m, log), k)
  {
    assert (log + [k])[..|log|] == log;
  }

  lemma {:induction false} ReplayAll(m: Memory, known: seq<Mark>, more: seq<Mark>)
    ensures Replay(m, known + more) == Replay(Replay(m, known), more)
  {
    if more == [] {
      assert known + more == known;
    } else {
      var n := |more| - 1;
      ReplayAll(m, known, more[..n]);
      assert known + more == known + more[..n] + [more[n]];
      ReplayMore(m, known + more[..n], more[n]);
    }
  }

  lemma {:induction false} LessonsConcat(host: string, a: seq<Sent>, b: seq<Sent>)
    ensures Lessons(host, a + b) == Lessons(host, a) + Lessons(host, b)
  {
    if b == [] {
      assert a + b == a;
    } else {
      assert (a + b)[..|a + b| - 1] == a + b[..|b| - 1];
      LessonsConcat(host, a, b[..|b| - 1]);
    }
  }

  lemma {:induction false} OwnMarksConcat(a: seq<Entry>, b: seq<Entry>)
    ensures OwnMarks(a + b) == OwnMarks(a) + OwnMarks(b)
  {
    if b == [] {
      assert a + b == a;
    } else {
      assert (a + b)[..|a + b| - 1] == a + b[..|b| - 1];
      OwnMarksConcat(a, b[..|b| - 1]);
    }
  }

  lemma {:induction false} OverheardIsNotOwn(marks: seq<Mark>)
    ensures OwnMarks(Overheard(marks)) == [] && Marks(Overheard(marks)) == marks
  {
    if marks != [] {
      var n := |marks| - 1;
      assert Overheard(marks)[..n] == Overheard(marks[..n]);
      OverheardIsNotOwn(marks[..n]);
    }
  }

  lemma DropMore<T>(a: seq<T>, n: nat, b: seq<T>)
    requires n <= |a|
    ensures (a + b)[n..] == a[n..] + b
  {
  }

  lemma MarksConcat(a: seq<Entry>, b: seq<Entry>)
    ensures Marks(a + b) == Marks(a) + Marks(b)
  {
  }

  /** More marks, and as many lessons as there are own ones among them. */
  lemma {:induction false} LearnedMore(host: string, w: World, v: World, v': World, sent: seq<Sent>, heard: seq<Entry>)
    requires Learned(host, w, v)
    requires v'.trace == v.trace + sent && v'.log == v.log + heard
    requires v'.memory == Replay(v.memory, Marks(heard)) && OwnMarks(heard) == Lessons(host, sent)
    ensures Learned(host, w, v')
  {
    var since, log := v.trace[|w.trace|..], v.log[|w.log|..];
    DropMore(v.trace, |w.trace|, sent);
    DropMore(v.log, |w.log|, heard);
    LessonsConcat(host, since, sent);
    OwnMarksConcat(log, heard);
    MarksConcat(log, heard);
    ReplayAll(w.memory, Marks(log), Marks(heard));
  }

  lemma {:induction false} HearingTeaches(env: Env, w: World, v: World)
    requires Learned(env.host, w, v)
    ensures Learned(env.host, w, Hear(env, v))
  {
    var heard := Overheard(env.others(v.looks));
    OverheardIsNotOwn(env.others(v.looks));
    assert v.trace == v.trace + [];
    LearnedMore(env.host, w, v, Hear(env, v), [], heard);
  }

  lemma {:induction false} OneAmongOthers(marks: seq<Mark>, k: Mark)
    ensures Marks(Overheard(marks) + [Own(k)]) == marks + [k]
    ensures OwnMarks(Overheard(marks) + [Own(k)]) == [k]
  {
    OverheardIsNotOwn(marks);
    OwnMarksConcat(Overheard(marks), [Own(k)]);
    MarksConcat(Overheard(marks), [Own(k)]);
    assert [Own(k)][..0] == [];
  }

  /** A request, or a pair, that teaches one mark. */
  lemma {:induction false} OneLesson(env: Env, w: World, v: World, later: nat, sent: seq<Sent>, k: Mark)
    requires Learned(env.host, w, v) && Lessons(env.host, sent) == [k]
    ensures Learned(env.host, w, Teach(env, Turn(v, later, sent), k))
  {
    var marks := env.others(v.looks);
    var heard := Overheard(marks) + [Own(k)];
    OneAmongOthers(marks, k);
    ReplayMore(v.memory, marks, k);
    var v' := Teach(env, Turn(v, later, sent), k);
    assert v'.log == v.log + heard;
    LearnedMore(env.host, w, v, v', sent, heard);
  }

  /** Requests that teach nothing. */
  lemma {:induction false} NoLesson(host: string, w: World, v: World, later: nat, sent: seq<Sent>)
    requires Learned(host, w, v) && Lessons(host, sent) == []
    ensures Learned(host, w, Turn(v, later, sent))
  {
    assert v.log == v.log + [];
    LearnedMore(host, w, v, Turn(v, later, sent), sent, []);
  }

  lemma LessonsOfOne(host: string, s: Sent)
    ensures Lessons(host, [s]) == Lesson(host, s)
  {
    assert [s][..0] == [];
  }

  lemma {:induction false} TryOneTeaches(
    env: Env, agent: string, tryTime: int, stageStart: nat, plan: seq<Proto>, pi: nat, st: Stage, w: World)
    requires pi < |plan| && Learned(env.host, w, st.w)
    ensures Learned(env.host, w, TryOne(env, agent, tryTime, stageStart, plan, pi, st).w)
  {
    var timeout := ProtoTimeout(env, tryTime, stageStart, |plan|, pi, st.w.now);
    var s := Exchange(env, st.w, agent, plan[pi], timeout, |st.w.trace|, Planned);
    var k :=
      if s.outcome.Answer? then Succeeded(env.host, plan[pi])
      else Failed(env.host, plan[pi], s.outcome.err, s.at + s.took);
    assert TryOne(env, agent, tryTime, stageStart, plan, pi, st).w == Teach(env, Turn(st.w, s.at + s.took, [s]), k);
    LessonsOfOne(env.host, s);
    OneLesson(env, w, st.w, s.at + s.took, [s], k);
  }

  lemma {:induction false} TriesTeach(
    env: Env, agent: string, tryTime: int, stageStart: nat, plan: seq<Proto>, pi: nat, st: Stage, w: World)
    requires Learned(env.host, w, st.w)
    ensures Learned(env.host, w, TryFrom(env, agent, tryTime, stageStart, plan, pi, st).w)
    decreases |plan| - pi
  {
    if pi < |plan| {
      TryOneTeaches(env, agent, tryTime, stageStart, plan, pi, st, w);
      var next := TryOne(env, agent, tryTime, stageStart, plan, pi, st);
      if GoesOn(env, next) {
        TriesTeach(env, agent, tryTime, stageStart, plan, pi + 1, next, w);
      }
    }
  }

  /** Of a hedged pair only the winner teaches, and there is one exactly when either was answered. */
  lemma {:induction false} RaceLesson(
    env: Env, agent: string, timeout: int, st: Stage) returns (h2: Sent, h1: Sent, later: nat)
    ensures var r := Race(env, agent, timeout, st);
            && h2.proto == H2 && h1.proto == H1 && h2.role != Planned && h1.role != Planned
            && !(h2.role == HedgeWinner && h1.role == HedgeWinner)
            && (r.got.Some? <==> h2.role == HedgeWinner || h1.role == HedgeWinner)
            && (r.got.Some? <==> h2.outcome.Answer? || h1.outcome.Answer?)
            && (r.got.Some? ==> r.got.value in [h2, h1] && r.got.value.role == HedgeWinner)
            && (r.err.Some? ==> h2.outcome == Broken(r.err.value) || h1.outcome == Broken(r.err.value))
            && var turn := Turn(st.w, later, [h2, h1]);
               r.w == if r.got.Some? then Teach(env, turn, Succeeded(env.host, r.got.value.proto)) else turn
  {
    var r := Race(env, agent, timeout, st);
    h2, h1, later := r.w.trace[|st.w.trace|], r.w.trace[|st.w.trace| + 1], r.w.now;
  }

  lemma LessonsOfPair(host: string, a: Sent, b: Sent)
    ensures Lessons(host, [a, b]) == Lesson(host, a) + Lesson(host, b)
  {
    LessonsOfOne(host, a);
    assert [a, b][..1] == [a];
  }

  lemma {:induction false} RaceTeaches(env: Env, agent: string, timeout: int, st: Stage, w: World)
    requires Learned(env.host, w, st.w)
    ensures Learned(env.host, w, Race(env, agent, timeout, st).w)
  {
    var h2, h1, later := RaceLesson(env, agent, timeout, st);
    LessonsOfPair(env.host, h2, h1);
    var r := Race(env, agent, timeout, st);
    if r.got.Some? {
      OneLesson(env, w, st.w, later, [h2, h1], Succeeded(env.host, r.got.value.proto));
    } else {
      NoLesson(env.host, w, st.w, later, [h2, h1]);
    }
  }

  lemma {:induction false} HedgeTeaches(env: Env, agent: string, tryTime: int, planLength: nat, st: Stage, w: World)
    requires Learned(env.host, w, st.w)
    ensures Learned(env.host, w, Hedge(env, agent, tryTime, planLength, st).w)
  {
    RaceTeaches(env, agent, HedgeTimeout(env, tryTime, st.w.now), st, w);
  }

  lemma {:induction false} ContactTeaches(env: Env, agent: string, w: World, v: World)
    requires Learned(env.host, w, v)
    ensures Learned(env.host, w, Contact(env, agent, v).w)
  {
    HearingTeaches(env, w, v);
    PlannedTeaches(env, agent, PlanOf(env, Hear(env, v)), w, Hear(env, v));
  }

  lemma {:induction false} PlannedTeaches(env: Env, agent: string, plan: seq<Proto>, w: World, v: World)
    requires plan != [] && Learned(env.host, w, v)
    ensures Learned(env.host, w, ContactWith(env, agent, plan, v).w)
  {
    var tryTime := TryTime(env, v.now);
    var start := Stage(v, None, None, None);
    TriesTeach(env, agent, tryTime, v.now, plan, 0, start, w);
    HedgeTeaches(env, agent, tryTime, |plan|, TryFrom(env, agent, tryTime, v.now, plan, 0, start), w);
  }

  /** Reading and judging the answer takes time and changes nothing else. */
  lemma {:induction false} JudgingTeachesNothing(host: string, w: World, stageStart: nat, st: Stage)
    requires st.got.Some? ==> st.got.value.outcome.Answer?
    requires st.got.None? ==> st.err.Some?
    requires Learned(host, w, st.w)
    ensures Learned(host, w, Judge(stageStart, st).0)
  {
    var v := Judge(stageStart, st).0;
    assert v.memory == st.w.memory && v.trace == st.w.trace && v.log == st.w.log;
  }

  lemma {:induction false} AttemptTeaches(env: Env, agent: string, w: World, v: World)
    requires Learned(env.host, w, v)
    ensures Learned(env.host, w, Attempt(env, agent, v).0)
  {
    ContactTeaches(env, agent, w, v);
    JudgingTeachesNothing(env.host, w, v.now, Contact(env, agent, v));
  }

  /** Main result: whatever marks other calls make meanwhile, after the call the host memory is what it was before,
      updated by all marks made since in their order; those of this call among them are one for each planned request
      and for each winner of a hedged pair, in the order they were sent. */
  lemma {:induction false} FetchLearns(
    cfg: Config, agents: seq<string>, host: string, net: nat -> Reply, race: nat -> bool, others: Others, w: World)
    ensures Learned(host, w, Fetch(cfg, agents, host, net, race, others, w).w)
  {
    var env := EnvOf(cfg, host, net, race, others, w.now);
    var c := LoopOf(env, agents, Attempts(cfg), w.now);
    var P := (v: World) => Learned(host, w, v);
    forall a, v: World | P(v) ensures P(c.attempt(a, Begin(v)).0) {
      AttemptTeaches(env, a, w, Begin(v));
    }
    assert w.trace[|w.trace|..] == [] && w.log[|w.log|..] == [];
    RunKeeps(c, w, 0, 0, None, P);
  }
}
