/** The scheduler: sequential passes over the enabled targets behind a semaphore, and the interval gate
    (Start, runOnce, shouldRunTargetNow in server/internal/scheduler/scheduler.go; CheckNow in
    server/internal/service/target_service.go). Every step of a goroutine is one step here, in any interleaving,
    together with the rows that others write and the refreshes that others lead. Instants are nanoseconds. */
module Scheduler {
  import opened Int64
  import opened Text

  const SECOND := 1_000_000_000

  datatype Kind = TrackingKind | SubscriptionKind | NodeGroupKind | CheckerKind

  datatype Target = Target(id: nat, kind: Kind, interval: int)

  /** What a scheduled check was decided on: when, after how many rows, at which interval and gap, whether the latest
      row could be read, and the time stamp of a refresh of the target that was stamped but not yet published. */
  datatype Decision = Decision(at: int, seen: nat, interval: int, gap: int, readOk: bool, stale: Option<int>)

  datatype Origin = ByOthers | Scheduled(d: Decision)

  datatype Row = Row(target: nat, at: int, origin: Origin)

  /** Where the goroutine of a target is; Checking knows the stamp of the refresh it joined, if that has one. */
  datatype Pc = Waiting | Inside | Decided(d: Decision) | Checking(d: Decision, joined: Option<int>) | Leaving | Gone

  datatype Task = Task(target: Target, pc: Pc)

  /** stamps holds the refreshes in flight whose result has its time stamp already. */
  datatype State = State(clock: int, rows: seq<Row>, tasks: seq<Task>, sem: nat, stamps: map<nat, int>)

  function Limit(concurrency: int): nat {
    if concurrency <= 0 then 8 else concurrency
  }

  function Interval(t: Target): int {
    if t.interval <= 0 then 60 else t.interval
  }

  /** How far back the latest row has to be: -time.Duration(interval) * time.Second, added to the time. */
  function GapOf(interval: int): int {
    -Wrap64(-interval * SECOND)
  }

  function Gap(t: Target): int {
    GapOf(Interval(t))
  }

  /** The latest time of a row of the target. */
  function Latest(rows: seq<Row>, target: nat): Option<int> {
    if rows == [] then None
    else
      var before, r := Latest(rows[..|rows| - 1], target), rows[|rows| - 1];
      if r.target == target && (before.None? || before.value < r.at) then Some(r.at) else before
  }

  predicate ShouldRun(t: Target, rows: seq<Row>, now: int, readOk: bool) {
    if (t.kind.SubscriptionKind? || t.kind.NodeGroupKind?) && t.interval <= 0 then false
    else if !readOk then true
    else
      match Latest(rows, t.id)
      case None => true
      case Some(last) => last < now - Gap(t)
  }

  function StampOf(s: State, id: nat): Option<int> {
    if id in s.stamps then Some(s.stamps[id]) else None
  }

  datatype Step =
    | Wait(dt: nat)
    | BeginPass(targets: seq<Target>)
    | Acquire(k: nat)
    | Decide(k: nat, readOk: bool)
    | Check(k: nat)
    | Write(k: nat, stamp: int)
    | Fail(k: nat)
    | Release(k: nat)
    | OthersWrite(target: nat, at: int)
    | OthersStamp(target: nat)
    | OthersPublish(target: nat)

  ghost predicate DistinctTargets(targets: seq<Target>) {
    forall i, j :: 0 <= i < j < |targets| ==> targets[i].id != targets[j].id
  }

  /** Whether a write with this stamp is possible: that of the joined refresh, or one taken since the decision. */
  predicate MayStamp(s: State, d: Decision, joined: Option<int>, stamp: int) {
    match joined
    case Some(x) => stamp == x
    case None => d.at <= stamp <= s.clock
  }

  ghost predicate Enabled(s: State, t: Step, limit: nat) {
    match t
    case Wait(_) => true
    case BeginPass(targets) => DistinctTargets(targets) && forall i :: 0 <= i < |s.tasks| ==> s.tasks[i].pc.Gone?
    case Acquire(k) => k < |s.tasks| && s.tasks[k].pc.Waiting? && s.sem < limit
    case Decide(k, _) => k < |s.tasks| && s.tasks[k].pc.Inside?
    case Check(k) => k < |s.tasks| && s.tasks[k].pc.Decided?
    case Write(k, stamp) =>
      k < |s.tasks| && s.tasks[k].pc.Checking? && MayStamp(s, s.tasks[k].pc.d, s.tasks[k].pc.joined, stamp)
    case Fail(k) => k < |s.tasks| && s.tasks[k].pc.Checking?
    case Release(k) => k < |s.tasks| && s.tasks[k].pc.Leaving?
    case OthersWrite(_, _) => true
    case OthersStamp(target) => target !in s.stamps
    case OthersPublish(target) => target in s.stamps
  }

  function Move(s: State, k: nat, pc: Pc): State
    requires k < |s.tasks|
  {
    s.(tasks := s.tasks[k := s.tasks[k].(pc := pc)])
  }

  function DecisionOf(s: State, t: Target, readOk: bool): Decision {
    var pending := if t.kind.SubscriptionKind? then StampOf(s, t.id) else None;
    Decision(s.clock, |s.rows|, Interval(t), Gap(t), readOk, pending)
  }

  function AfterDecision(s: State, t: Target, readOk: bool): Pc {
    if !t.kind.TrackingKind? && ShouldRun(t, s.rows, s.clock, readOk) then Decided(DecisionOf(s, t, readOk))
    else Leaving
  }

  function TasksOf(targets: seq<Target>): (r: seq<Task>)
    ensures |r| == |targets|
  {
    seq(|targets|, i requires 0 <= i < |targets| => Task(targets[i], Waiting))
  }

  ghost function Next(s: State, t: Step, limit: nat): State
    requires Enabled(s, t, limit)
  {
    match t
    case Wait(dt) => s.(clock := s.clock + dt)
    case BeginPass(targets) => s.(tasks := TasksOf(targets), sem := 0)
    case Acquire(k) => Move(s, k, Inside).(sem := s.sem + 1)
    case Decide(k, readOk) => Move(s, k, AfterDecision(s, s.tasks[k].target, readOk))
    case Check(k) =>
      var t := s.tasks[k].target;
      Move(s, k, Checking(s.tasks[k].pc.d, if t.kind.SubscriptionKind? then StampOf(s, t.id) else None))
    case Write(k, stamp) =>
      Move(s, k, Leaving).(rows := s.rows + [Row(s.tasks[k].target.id, stamp, Scheduled(s.tasks[k].pc.d))])
    case Fail(k) => Move(s, k, Leaving)
    case Release(k) => Move(s, k, Gone).(sem := if s.sem > 0 then s.sem - 1 else 0)
    case OthersWrite(target, at) => s.(rows := s.rows + [Row(target, at, ByOthers)])
    case OthersStamp(target) => s.(stamps := s.stamps[target := s.clock])
    case OthersPublish(target) => s.(stamps := s.stamps - {target})
  }

  const INITIAL := State(0, [], [], 0, map[])

  ghost predicate IsRun(s: State, steps: seq<Step>, limit: nat)
    decreases |steps|
  {
    steps != [] ==> Enabled(s, steps[0], limit) && IsRun(Next(s, steps[0], limit), steps[1..], limit)
  }

  ghost function After(s: State, steps: seq<Step>, limit: nat): State
    requires IsRun(s, steps, limit)
    decreases |steps|
  {
    if steps == [] then s else After(Next(s, steps[0], limit), steps[1..], limit)
  }

  // ----- The semaphore -----

  predicate Holds(t: Task) {
    !t.pc.Waiting? && !t.pc.Gone?
  }

  /** How many goroutines are past the semaphore. */
  function Holders(tasks: seq<Task>): nat {
    if tasks == [] then 0 else Holders(tasks[..|tasks| - 1]) + if Holds(tasks[|tasks| - 1]) then 1 else 0
  }

  lemma {:induction false} HoldersAt(tasks: seq<Task>, k: nat, t: Task)
    requires k < |tasks|
    ensures Holders(tasks[k := t]) == Holders(tasks) - (if Holds(tasks[k]) then 1 else 0) + if Holds(t) then 1 else 0
  {
    var n := |tasks| - 1;
    if k < n {
      assert tasks[k := t][..n] == tasks[..n][k := t];
      HoldersAt(tasks[..n], k, t);
    } else {
      assert tasks[k := t][..n] == tasks[..n];
    }
  }

  lemma {:induction false} NoHolders(tasks: seq<Task>)
    requires forall i :: 0 <= i < |tasks| ==> !Holds(tasks[i])
    ensures Holders(tasks) == 0
  {
    if tasks != [] {
      NoHolders(tasks[..|tasks| - 1]);
    }
  }

  lemma {:induction false} AHolder(tasks: seq<Task>) returns (k: nat)
    requires Holders(tasks) > 0
    ensures k < |tasks| && Holds(tasks[k])
  {
    var n := |tasks| - 1;
    if Holds(tasks[n]) {
      k := n;
    } else {
      k := AHolder(tasks[..n]);
    }
  }

  /** The semaphore counts the goroutines past it, and never more than the limit. */
  ghost predicate Counted(s: State, limit: nat) {
    s.sem == Holders(s.tasks) && s.sem <= limit
  }

  lemma StepKeepsCount(s: State, t: Step, limit: nat)
    requires Counted(s, limit) && Enabled(s, t, limit)
    ensures Counted(Next(s, t, limit), limit)
  {
    match t
    case BeginPass(targets) => NoHolders(TasksOf(targets));
    case Acquire(k) => HoldersAt(s.tasks, k, s.tasks[k].(pc := Inside));
    case Decide(k, readOk) => HoldersAt(s.tasks, k, s.tasks[k].(pc := AfterDecision(s, s.tasks[k].target, readOk)));
    case Check(k) => HoldersAt(s.tasks, k, Next(s, t, limit).tasks[k]);
    case Write(k, _) => HoldersAt(s.tasks, k, s.tasks[k].(pc := Leaving));
    case Fail(k) => HoldersAt(s.tasks, k, s.tasks[k].(pc := Leaving));
    case Release(k) => HoldersAt(s.tasks, k, s.tasks[k].(pc := Gone));
    case Wait(_) =>
    case OthersWrite(_, _) =>
    case OthersStamp(_) =>
    case OthersPublish(_) =>
  }

  // ----- Spacing -----

  /** The decision holds: every row of the target that was seen is more than the gap older. */
  ghost predicate Sound(d: Decision, target: nat, rows: seq<Row>) {
    && d.seen <= |rows| && d.gap == GapOf(d.interval)
    && (d.readOk ==> forall j :: 0 <= j < d.seen && rows[j].target == target ==> rows[j].at + d.gap < d.at)
  }

  /** The scheduler's rows of the target all precede the n-th row. */
  ghost predicate AllBefore(rows: seq<Row>, target: nat, n: nat) {
    forall j :: 0 <= j < |rows| && rows[j].target == target && rows[j].origin.Scheduled? ==> j < n
  }

  /** A stamp is newer than the decision, or was there at the decision. */
  ghost predicate Fresh(d: Decision, stamp: int) {
    stamp >= d.at || d.stale == Some(stamp)
  }

  ghost predicate TaskOk(s: State, t: Task) {
    match t.pc
    case Decided(d) =>
      && d.at <= s.clock && Sound(d, t.target.id, s.rows) && AllBefore(s.rows, t.target.id, d.seen)
      && (t.target.kind.SubscriptionKind? && t.target.id in s.stamps ==> Fresh(d, s.stamps[t.target.id]))
    case Checking(d, joined) =>
      && d.at <= s.clock && Sound(d, t.target.id, s.rows) && AllBefore(s.rows, t.target.id, d.seen)
      && (joined.Some? ==> Fresh(d, joined.value))
    case _ => true
  }

  ghost predicate RowOk(rows: seq<Row>, k: nat)
    requires k < |rows|
  {
    var r := rows[k];
    r.origin.Scheduled? ==>
      && Sound(r.origin.d, r.target, rows) && r.origin.d.seen <= k && Fresh(r.origin.d, r.at)
      && forall j :: 0 <= j < k && rows[j].target == r.target && rows[j].origin.Scheduled? ==> j < r.origin.d.seen
  }

  ghost predicate Inv(s: State) {
    && (forall i, j :: 0 <= i < j < |s.tasks| ==> s.tasks[i].target.id != s.tasks[j].target.id)
    && (forall i :: 0 <= i < |s.tasks| ==> TaskOk(s, s.tasks[i]))
    && (forall k :: 0 <= k < |s.rows| ==> RowOk(s.rows, k))
    && (forall t :: t in s.stamps ==> s.stamps[t] <= s.clock)
  }

  lemma {:induction false} LatestIsLatest(rows: seq<Row>, target: nat)
    ensures Latest(rows, target).None? <==> forall j :: 0 <= j < |rows| ==> rows[j].target != target
    ensures Latest(rows, target).Some? ==>
              (forall j :: 0 <= j < |rows| && rows[j].target == target ==> rows[j].at <= Latest(rows, target).value)
  {
    if rows != [] {
      var n := |rows| - 1;
      LatestIsLatest(rows[..n], target);
      assert forall j :: 0 <= j < n ==> rows[j] == rows[..n][j];
    }
  }

  lemma {:induction false} LatestIsARow(rows: seq<Row>, target: nat)
    requires Latest(rows, target).Some?
    ensures exists j :: 0 <= j < |rows| && rows[j].target == target && rows[j].at == Latest(rows, target).value
  {
    var n := |rows| - 1;
    if Latest(rows[..n], target) == Latest(rows, target) {
      LatestIsARow(rows[..n], target);
      var j :| 0 <= j < n && rows[..n][j].target == target && rows[..n][j].at == Latest(rows, target).value;
      assert rows[j] == rows[..n][j];
    }
  }

  /** When the latest row can be read, a target is due exactly when every row of it is more than the
      gap older; subscriptions and groups without an interval never are. */
  lemma {:induction false} DueIff(t: Target, rows: seq<Row>, now: int)
    ensures ShouldRun(t, rows, now, true) <==>
              && (t.interval > 0 || t.kind.TrackingKind? || t.kind.CheckerKind?)
              && forall j :: 0 <= j < |rows| && rows[j].target == t.id ==> rows[j].at + Gap(t) < now
  {
    LatestIsLatest(rows, t.id);
    if Latest(rows, t.id).Some? {
      LatestIsARow(rows, t.id);
    }
  }

  /** The gap is the interval, 60 seconds if none is set, exactly up to 9 223 372 036 seconds; above that it is
      shorter, and the first second above makes it negative. */
  lemma {:induction false} GapIsIntervalIff(t: Target)
    ensures t.interval <= 0 ==> Gap(t) == 60 * SECOND
    ensures t.interval > 0 ==> (Gap(t) == t.interval * SECOND <==> t.interval <= 9_223_372_036)
    ensures t.interval > 9_223_372_036 ==> Gap(t) < t.interval * SECOND
    ensures t.interval == 9_223_372_037 ==> Gap(t) < 0
  {
    if t.interval > 9_223_372_036 {
      assert -t.interval * SECOND < -0x8000_0000_0000_0000;
    }
  }

  /** Main result: the gate keeps a target from running within its interval, at all times and for all rows,
      exactly when the interval is at most 9 223 372 036 seconds. */
  lemma {:induction false} IntervalIsKeptIff(t: Target)
    requires t.interval > 0
    ensures (forall rows: seq<Row>, now: int, j: nat ::
               ShouldRun(t, rows, now, true) && j < |rows| && rows[j].target == t.id ==>
                 rows[j].at + t.interval * SECOND < now)
            <==> t.interval <= 9_223_372_036
  {
    GapIsIntervalIff(t);
    if t.interval <= 9_223_372_036 {
      forall rows: seq<Row>, now: int, j: nat |
        ShouldRun(t, rows, now, true) && j < |rows| && rows[j].target == t.id
        ensures rows[j].at + t.interval * SECOND < now
      {
        DueIff(t, rows, now);
      }
    } else {
      var rows, now := [Row(t.id, 0, ByOthers)], Gap(t) + 1;
      DueIff(t, rows, now);
      assert ShouldRun(t, rows, now, true);
      assert rows[0].target == t.id && !(rows[0].at + t.interval * SECOND < now);
    }
  }

  lemma DecisionIsSound(s: State, t: Target, readOk: bool)
    requires ShouldRun(t, s.rows, s.clock, readOk)
    ensures Sound(DecisionOf(s, t, readOk), t.id, s.rows)
  {
    LatestIsLatest(s.rows, t.id);
  }

  lemma MoreRowsKeepTask(s: State, t: Task, r: Row)
    requires TaskOk(s, t) && (r.origin.Scheduled? ==> r.target != t.target.id)
    ensures TaskOk(s.(rows := s.rows + [r]), t)
  {
  }

  lemma MoreRowsKeepRow(rows: seq<Row>, r: Row, k: nat)
    requires k < |rows| && RowOk(rows, k)
    ensures RowOk(rows + [r], k)
  {
    assert forall j :: 0 <= j < |rows| ==> (rows + [r])[j] == rows[j];
  }

  lemma WriteKeepsInv(s: State, k: nat, stamp: int, limit: nat)
    requires Inv(s) && Enabled(s, Write(k, stamp), limit)
    ensures Inv(Next(s, Write(k, stamp), limit))
  {
    var s' := Next(s, Write(k, stamp), limit);
    var d := s.tasks[k].pc.d;
    var r := Row(s.tasks[k].target.id, stamp, Scheduled(d));
    assert TaskOk(s, s.tasks[k]);
    forall i | 0 <= i < |s'.tasks| ensures TaskOk(s', s'.tasks[i]) {
      if i != k {
        assert s.tasks[i].target.id != s.tasks[k].target.id;
        MoreRowsKeepTask(s, s.tasks[i], r);
      }
    }
    forall j | 0 <= j < |s'.rows| ensures RowOk(s'.rows, j) {
      if j < |s.rows| {
        MoreRowsKeepRow(s.rows, r, j);
      } else {
        assert forall m :: 0 <= m < |s.rows| ==> s'.rows[m] == s.rows[m];
      }
    }
  }

  lemma DecideKeepsInv(s: State, k: nat, readOk: bool, limit: nat)
    requires Inv(s) && Enabled(s, Decide(k, readOk), limit)
    ensures Inv(Next(s, Decide(k, readOk), limit))
  {
    var s' := Next(s, Decide(k, readOk), limit);
    var t := s.tasks[k].target;
    if ShouldRun(t, s.rows, s.clock, readOk) {
      DecisionIsSound(s, t, readOk);
    }
    forall i | 0 <= i < |s'.tasks| ensures TaskOk(s', s'.tasks[i]) {
      assert TaskOk(s, s.tasks[i]);
    }
  }

  lemma OthersWriteKeepsInv(s: State, target: nat, at: int, limit: nat)
    requires Inv(s)
    ensures Inv(Next(s, OthersWrite(target, at), limit))
  {
    var r := Row(target, at, ByOthers);
    forall i | 0 <= i < |s.tasks| ensures TaskOk(s.(rows := s.rows + [r]), s.tasks[i]) {
      MoreRowsKeepTask(s, s.tasks[i], r);
    }
    forall j | 0 <= j < |s.rows| + 1 ensures RowOk(s.rows + [r], j) {
      if j < |s.rows| {
        MoreRowsKeepRow(s.rows, r, j);
      }
    }
  }

  lemma MoveKeepsInv(s: State, t: Step, limit: nat)
    requires Inv(s) && Enabled(s, t, limit) && (t.Acquire? || t.Check? || t.Fail? || t.Release?)
    ensures Inv(Next(s, t, limit))
  {
    var s' := Next(s, t, limit);
    forall i | 0 <= i < |s'.tasks| ensures TaskOk(s', s'.tasks[i]) {
      assert TaskOk(s, s.tasks[i]);
    }
  }

  lemma EnvironmentKeepsInv(s: State, t: Step, limit: nat)
    requires Inv(s) && Enabled(s, t, limit) && (t.Wait? || t.OthersStamp? || t.OthersPublish? || t.BeginPass?)
    ensures Inv(Next(s, t, limit))
  {
    var s' := Next(s, t, limit);
    forall i | 0 <= i < |s'.tasks| ensures TaskOk(s', s'.tasks[i]) {
      if !t.BeginPass? {
        assert TaskOk(s, s.tasks[i]);
      }
    }
  }

  lemma StepKeepsInv(s: State, t: Step, limit: nat)
    requires Inv(s) && Enabled(s, t, limit)
    ensures Inv(Next(s, t, limit))
  {
    match t
    case Write(k, stamp) => WriteKeepsInv(s, k, stamp, limit);
    case Decide(k, readOk) => DecideKeepsInv(s, k, readOk, limit);
    case OthersWrite(target, at) => OthersWriteKeepsInv(s, target, at, limit);
    case Acquire(_) => MoveKeepsInv(s, t, limit);
    case Check(_) => MoveKeepsInv(s, t, limit);
    case Fail(_) => MoveKeepsInv(s, t, limit);
    case Release(_) => MoveKeepsInv(s, t, limit);
    case Wait(_) => EnvironmentKeepsInv(s, t, limit);
    case OthersStamp(_) => EnvironmentKeepsInv(s, t, limit);
    case OthersPublish(_) => EnvironmentKeepsInv(s, t, limit);
    case BeginPass(_) => EnvironmentKeepsInv(s, t, limit);
  }

  lemma {:induction false} RunKeepsInv(s: State, steps: seq<Step>, limit: nat)
    requires Inv(s) && Counted(s, limit) && IsRun(s, steps, limit)
    ensures Inv(After(s, steps, limit)) && Counted(After(s, steps, limit), limit)
    decreases |steps|
  {
    if steps != [] {
      StepKeepsInv(s, steps[0], limit);
      StepKeepsCount(s, steps[0], limit);
      RunKeepsInv(Next(s, steps[0], limit), steps[1..], limit);
    }
  }

  /** Main result: over every run, at most the limit of goroutines are past the semaphore, which counts them. */
  lemma AtMostLimitRun(steps: seq<Step>, concurrency: int)
    requires IsRun(INITIAL, steps, Limit(concurrency))
    ensures var s := After(INITIAL, steps, Limit(concurrency));
            Holders(s.tasks) == s.sem <= Limit(concurrency) && (concurrency <= 0 ==> Holders(s.tasks) <= 8)
  {
    RunKeepsInv(INITIAL, steps, Limit(concurrency));
  }

  /** Main result: over every run, a row of the scheduler is more than the gap, and so for every interval of at
      most 9 223 372 036 seconds more than the interval, later than every row of its target that was there at its
      decision and than every earlier row of the scheduler for that target, provided that the latest row could be
      read and that no refresh of the target that had been stamped too early for it was waiting to be published at
      the decision. */
  lemma RowsAreSpaced(steps: seq<Step>, concurrency: int, j: nat, k: nat)
    requires IsRun(INITIAL, steps, Limit(concurrency))
    requires var rows := After(INITIAL, steps, Limit(concurrency)).rows;
             && j < k < |rows| && rows[j].target == rows[k].target && rows[k].origin.Scheduled?
             && (rows[j].origin.Scheduled? || j < rows[k].origin.d.seen)
    ensures var rows := After(INITIAL, steps, Limit(concurrency)).rows;
            var d := rows[k].origin.d;
            && (d.readOk && (d.stale.None? || rows[j].at + d.gap < d.stale.value) ==> rows[j].at + d.gap < rows[k].at)
            && (0 < d.interval <= 9_223_372_036 ==> d.gap == d.interval * SECOND)
  {
    RunKeepsInv(INITIAL, steps, Limit(concurrency));
    var s := After(INITIAL, steps, Limit(concurrency));
    assert RowOk(s.rows, k);
  }

  /** The stamp is more than the gap later than the rows of the target that the decision saw. */
  ghost predicate SpacedFrom(rows: seq<Row>, target: nat, d: Decision, stamp: int)
    requires d.seen <= |rows|
  {
    forall j :: 0 <= j < d.seen && rows[j].target == target ==> rows[j].at + d.gap < stamp
  }

  /** Main result: after a decision, every row that the check may write at once is spaced exactly when there was
      no refresh waiting to be published, or its stamp is spaced itself. */
  lemma SpacingIff(s: State, k: nat, limit: nat)
    requires Inv(s) && k < |s.tasks| && s.tasks[k].pc.Decided? && s.tasks[k].target.kind.SubscriptionKind?
    requires var d := s.tasks[k].pc.d;
             d.readOk && d.at == s.clock && d.seen == |s.rows| && d.stale == StampOf(s, s.tasks[k].target.id)
    ensures var id, d := s.tasks[k].target.id, s.tasks[k].pc.d;
            (forall stamp :: IsRun(s, [Check(k), Write(k, stamp)], limit) ==> SpacedFrom(s.rows, id, d, stamp)) <==>
            (d.stale.None? || SpacedFrom(s.rows, id, d, d.stale.value))
  {
    var id, d := s.tasks[k].target.id, s.tasks[k].pc.d;
    assert TaskOk(s, s.tasks[k]);
    forall stamp
      ensures IsRun(s, [Check(k), Write(k, stamp)], limit) <==> MayStamp(s, d, StampOf(s, id), stamp)
    {
      var s1 := Next(s, Check(k), limit);
      assert [Check(k), Write(k, stamp)][1..] == [Write(k, stamp)];
      assert s1.tasks[k].pc == Checking(d, StampOf(s, id));
      assert IsRun(s1, [Write(k, stamp)], limit) <==> Enabled(s1, Write(k, stamp), limit);
    }
    if d.stale.Some? {
      assert MayStamp(s, d, StampOf(s, id), d.stale.value);
    }
  }

  const SLOW := Target(1, SubscriptionKind, 60)

  const LATE := 100 * SECOND

  /** When the scheduler comes to the target, a refresh has been stamped but not published for a while. */
  const BEFORE := State(LATE, [Row(1, 0, ByOthers)], [Task(SLOW, Waiting)], 0, map[1 := 0])

  const DUE := Decision(LATE, 1, 60, 60 * SECOND, true, Some(0))

  lemma BeforeIsReachable() returns (steps: seq<Step>)
    ensures IsRun(INITIAL, steps, 8) && After(INITIAL, steps, 8) == BEFORE
  {
    var s1 := State(0, [], [Task(SLOW, Waiting)], 0, map[]);
    var s2 := s1.(rows := [Row(1, 0, ByOthers)]);
    var s3 := s2.(stamps := map[1 := 0]);
    steps := Prepend(s3, Wait(LATE), BEFORE, []);
    steps := Prepend(s2, OthersStamp(1), s3, steps);
    steps := Prepend(s1, OthersWrite(1, 0), s2, steps);
    assert TasksOf([SLOW]) == [Task(SLOW, Waiting)];
    steps := Prepend(INITIAL, BeginPass([SLOW]), s1, steps);
  }

  lemma StaleRowFollows() returns (steps: seq<Step>)
    ensures IsRun(BEFORE, steps, 8)
    ensures After(BEFORE, steps, 8).rows == [Row(1, 0, ByOthers), Row(1, 0, Scheduled(DUE))]
  {
    var s5 := BEFORE.(tasks := [Task(SLOW, Inside)], sem := 1);
    var s6 := s5.(tasks := [Task(SLOW, Decided(DUE))]);
    var s7 := s5.(tasks := [Task(SLOW, Checking(DUE, Some(0)))]);
    var s8 := s5.(tasks := [Task(SLOW, Leaving)], rows := [Row(1, 0, ByOthers), Row(1, 0, Scheduled(DUE))]);
    steps := Prepend(s7, Write(0, 0), s8, []);
    steps := Prepend(s6, Check(0), s7, steps);
    assert Latest(s5.rows, 1) == Some(0) by { assert s5.rows[..0] == []; }
    assert Next(s5, Decide(0, true), 8).tasks == s6.tasks;
    steps := Prepend(s5, Decide(0, true), s6, steps);
    steps := Prepend(BEFORE, Acquire(0), s5, steps);
  }

  /** A refresh that is stamped and then takes long to publish: the scheduler joins it, and its row is as old as
      the row that made the check due. */
  lemma StaleRowIsReachable() returns (steps: seq<Step>)
    ensures IsRun(INITIAL, steps, Limit(0))
    ensures After(INITIAL, steps, Limit(0)).rows == [Row(1, 0, ByOthers), Row(1, 0, Scheduled(DUE))]
  {
    var first := BeforeIsReachable();
    var second := StaleRowFollows();
    RunMore(INITIAL, first, second, 8);
    steps := first + second;
  }

  lemma {:induction false} RunMore(s: State, first: seq<Step>, second: seq<Step>, limit: nat)
    requires IsRun(s, first, limit) && IsRun(After(s, first, limit), second, limit)
    ensures IsRun(s, first + second, limit)
    ensures After(s, first + second, limit) == After(After(s, first, limit), second, limit)
    decreases |first|
  {
    if first == [] {
      assert first + second == second;
    } else {
      assert (first + second)[1..] == first[1..] + second;
      RunMore(Next(s, first[0], limit), first[1..], second, limit);
    }
  }

  lemma Prepend(s: State, t: Step, next: State, steps: seq<Step>) returns (r: seq<Step>)
    requires Enabled(s, t, 8) && Next(s, t, 8) == next && IsRun(next, steps, 8)
    ensures IsRun(s, r, 8) && After(s, r, 8) == After(next, steps, 8)
  {
    r := [t] + steps;
    assert r[1..] == steps;
  }

  // ----- Passes -----

  predicate IsTaskStep(t: Step) {
    t.Acquire? || t.Decide? || t.Check? || t.Write? || t.Fail? || t.Release?
  }

  function TaskRank(t: Task): nat {
    match t.pc
    case Waiting => 5
    case Inside => 4
    case Decided(_) => 3
    case Checking(_, _) => 2
    case Leaving => 1
    case Gone => 0
  }

  function Rank(tasks: seq<Task>): nat {
    if tasks == [] then 0 else Rank(tasks[..|tasks| - 1]) + TaskRank(tasks[|tasks| - 1])
  }

  lemma {:induction false} RankAt(tasks: seq<Task>, k: nat, t: Task)
    requires k < |tasks|
    ensures Rank(tasks[k := t]) == Rank(tasks) - TaskRank(tasks[k]) + TaskRank(t)
  {
    var n := |tasks| - 1;
    if k < n {
      assert tasks[k := t][..n] == tasks[..n][k := t];
      RankAt(tasks[..n], k, t);
    } else {
      assert tasks[k := t][..n] == tasks[..n];
    }
  }

  lemma StepUsesRank(s: State, t: Step, limit: nat)
    requires Enabled(s, t, limit) && !t.BeginPass?
    ensures Rank(Next(s, t, limit).tasks) <= Rank(s.tasks) - if IsTaskStep(t) then 1 else 0
  {
    if IsTaskStep(t) {
      RankAt(s.tasks, t.k, Next(s, t, limit).tasks[t.k]);
    }
  }

  /** While a pass is not over, one of its goroutines can go on. */
  lemma SomeTaskCanGoOn(s: State, limit: nat) returns (t: Step)
    requires Inv(s) && Counted(s, limit) && limit > 0 && exists i :: 0 <= i < |s.tasks| && !s.tasks[i].pc.Gone?
    ensures IsTaskStep(t) && Enabled(s, t, limit)
  {
    if s.sem > 0 {
      var k := AHolder(s.tasks);
      match s.tasks[k].pc
      case Inside => t := Decide(k, true);
      case Decided(_) => t := Check(k);
      case Checking(_, _) => t := Fail(k);
      case Leaving => t := Release(k);
    } else {
      var i :| 0 <= i < |s.tasks| && !s.tasks[i].pc.Gone?;
      if Holds(s.tasks[i]) {
        HolderCounts(s.tasks, i);
        assert false;
      }
      t := Acquire(i);
    }
  }

  lemma {:induction false} HolderCounts(tasks: seq<Task>, k: nat)
    requires k < |tasks| && Holds(tasks[k])
    ensures Holders(tasks) > 0
  {
    if k < |tasks| - 1 {
      HolderCounts(tasks[..|tasks| - 1], k);
    }
  }

  predicate InOnePass(steps: seq<Step>) {
    forall i :: 0 <= i < |steps| ==> !steps[i].BeginPass?
  }

  function TaskSteps(steps: seq<Step>): nat {
    if steps == [] then 0 else (if IsTaskStep(steps[0]) then 1 else 0) + TaskSteps(steps[1..])
  }

  function Decisions(steps: seq<Step>, k: nat): nat {
    if steps == [] then 0 else (if steps[0].Decide? && steps[0].k == k then 1 else 0) + Decisions(steps[1..], k)
  }

  function Writes(steps: seq<Step>, k: nat): nat {
    if steps == [] then 0 else (if steps[0].Write? && steps[0].k == k then 1 else 0) + Writes(steps[1..], k)
  }

  /** Past its decision, past its write. */
  function PastDecision(pc: Pc): nat {
    if pc.Waiting? || pc.Inside? then 0 else 1
  }

  function PastWrite(pc: Pc): nat {
    if pc.Leaving? || pc.Gone? then 1 else 0
  }

  lemma {:induction false} PassProgress(s: State, steps: seq<Step>, limit: nat, k: nat)
    requires IsRun(s, steps, limit) && InOnePass(steps) && k < |s.tasks|
    ensures var end := After(s, steps, limit);
            && |end.tasks| == |s.tasks| && end.tasks[k].target == s.tasks[k].target
            && TaskSteps(steps) + Rank(end.tasks) <= Rank(s.tasks)
            && PastDecision(s.tasks[k].pc) + Decisions(steps, k) == PastDecision(end.tasks[k].pc)
            && PastWrite(s.tasks[k].pc) + Writes(steps, k) <= PastWrite(end.tasks[k].pc)
    decreases |steps|
  {
    if steps != [] {
      StepUsesRank(s, steps[0], limit);
      assert forall i :: 0 <= i < |steps| - 1 ==> steps[1..][i] == steps[i + 1];
      PassProgress(Next(s, steps[0], limit), steps[1..], limit, k);
    }
  }

  lemma {:induction false} RankOfWaiting(targets: seq<Target>)
    ensures Rank(TasksOf(targets)) == 5 * |targets|
  {
    if targets != [] {
      var n := |targets| - 1;
      assert TasksOf(targets)[..n] == TasksOf(targets[..n]);
      RankOfWaiting(targets[..n]);
    }
  }

  /** Main result: a pass begins only when every goroutine of the one before is gone; within a pass, at most five
      steps a target are taken, so it ends, and when it has ended each of its targets, all distinct, has been
      decided on exactly once and has had at most one row written. */
  lemma PassHandlesEachTargetOnce(s: State, targets: seq<Target>, steps: seq<Step>, limit: nat, k: nat)
    requires Enabled(s, BeginPass(targets), limit) && k < |targets|
    requires var s1 := Next(s, BeginPass(targets), limit); IsRun(s1, steps, limit) && InOnePass(steps)
    ensures forall i :: 0 <= i < |s.tasks| ==> s.tasks[i].pc.Gone?
    ensures DistinctTargets(targets) && TaskSteps(steps) <= 5 * |targets|
    ensures var end := After(Next(s, BeginPass(targets), limit), steps, limit);
            && |end.tasks| == |targets| && end.tasks[k].target == targets[k] && Writes(steps, k) <= 1
            && (end.tasks[k].pc.Gone? ==> Decisions(steps, k) == 1)
  {
    RankOfWaiting(targets);
    PassProgress(Next(s, BeginPass(targets), limit), steps, limit, k);
  }

  /** Main result: in every reachable state, a pass that is not over can go on. */
  lemma PassesDoNotBlock(steps: seq<Step>, concurrency: int) returns (t: Step)
    requires IsRun(INITIAL, steps, Limit(concurrency))
    requires exists i :: 0 <= i < |After(INITIAL, steps, Limit(concurrency)).tasks| &&
                         !After(INITIAL, steps, Limit(concurrency)).tasks[i].pc.Gone?
    ensures IsTaskStep(t) && Enabled(After(INITIAL, steps, Limit(concurrency)), t, Limit(concurrency))
  {
    RunKeepsInv(INITIAL, steps, Limit(concurrency));
    t := SomeTaskCanGoOn(After(INITIAL, steps, Limit(concurrency)), Limit(concurrency));
  }
}
