/** What a pass of the scheduler comes to for each of its targets: which ones are checked, and what rows are written. */
module PassOutcome {
  import opened Text
  import opened Scheduler

  /** How many rows of the target the scheduler has written. */
  function ScheduledRows(rows: seq<Row>, target: nat): nat {
    if rows == [] then 0
    else
      var r := rows[|rows| - 1];
      ScheduledRows(rows[..|rows| - 1], target) + if r.target == target && r.origin.Scheduled? then 1 else 0
  }

  lemma ScheduledRowsMore(rows: seq<Row>, r: Row, target: nat)
    ensures ScheduledRows(rows + [r], target) ==
            ScheduledRows(rows, target) + if r.target == target && r.origin.Scheduled? then 1 else 0
  {
    assert (rows + [r])[..|rows|] == rows;
  }

  /** The target has a checker, and it is time: an interval is set or none is needed, and the latest row cannot be
      read or every row of the target is more than the gap older. */
  ghost predicate IsDue(t: Target, rows: seq<Row>, now: int, readOk: bool) {
    && !t.kind.TrackingKind?
    && (t.interval > 0 || t.kind.CheckerKind?)
    && (readOk ==> forall j :: 0 <= j < |rows| && rows[j].target == t.id ==> rows[j].at + Gap(t) < now)
  }

  predicate FailsCheck(steps: seq<Step>, k: nat) {
    Fail(k) in steps
  }

  ghost predicate DistinctTasks(s: State) {
    forall i, j :: 0 <= i < j < |s.tasks| ==> s.tasks[i].target.id != s.tasks[j].target.id
  }

  predicate IsChecked(pc: Pc) {
    pc.Decided? || pc.Checking?
  }

  /** A step of anything but goroutine k leaves k and the scheduled rows of its target alone. */
  lemma {:induction false} OthersLeave(s: State, t: Step, limit: nat, k: nat)
    requires DistinctTasks(s) && Enabled(s, t, limit) && !t.BeginPass? && k < |s.tasks|
    requires IsTaskStep(t) ==> t.k != k
    ensures var s' := Next(s, t, limit);
            && |s'.tasks| == |s.tasks| && s'.tasks[k] == s.tasks[k] && DistinctTasks(s')
            && ScheduledRows(s'.rows, s.tasks[k].target.id) == ScheduledRows(s.rows, s.tasks[k].target.id)
  {
    var s' := Next(s, t, limit);
    if |s'.rows| > |s.rows| {
      ScheduledRowsMore(s.rows, s'.rows[|s.rows|], s.tasks[k].target.id);
    }
    assert forall i :: 0 <= i < |s.tasks| ==> s'.tasks[i].target == s.tasks[i].target;
  }

  /** What goroutine k does in one step. */
  lemma {:induction false} OwnStep(s: State, t: Step, limit: nat, k: nat)
    requires DistinctTasks(s) && Enabled(s, t, limit) && IsTaskStep(t) && t.k == k && k < |s.tasks|
    ensures var s', id := Next(s, t, limit), s.tasks[k].target.id;
            && |s'.tasks| == |s.tasks| && s'.tasks[k].target == s.tasks[k].target && DistinctTasks(s')
            && ScheduledRows(s'.rows, id) == ScheduledRows(s.rows, id) + (if t.Write? then 1 else 0)
  {
    var s' := Next(s, t, limit);
    if t.Write? {
      ScheduledRowsMore(s.rows, s'.rows[|s.rows|], s.tasks[k].target.id);
    }
    assert forall i :: 0 <= i < |s.tasks| ==> s'.tasks[i].target == s.tasks[i].target;
  }

  /** After its decision: a goroutine that checks writes one row unless the check fails, one that does not writes
      none. */
  lemma {:induction false} AfterDeciding(s: State, steps: seq<Step>, limit: nat, k: nat)
    requires DistinctTasks(s) && IsRun(s, steps, limit) && InOnePass(steps) && k < |s.tasks|
    requires !s.tasks[k].pc.Waiting? && !s.tasks[k].pc.Inside?
    requires var end := After(s, steps, limit); k < |end.tasks| && end.tasks[k].pc.Gone?
    ensures var id := s.tasks[k].target.id;
            ScheduledRows(After(s, steps, limit).rows, id) ==
            ScheduledRows(s.rows, id) + if IsChecked(s.tasks[k].pc) && !FailsCheck(steps, k) then 1 else 0
    ensures FailsCheck(steps, k) ==> IsChecked(s.tasks[k].pc)
    decreases |steps|
  {
    if steps != [] {
      var t := steps[0];
      assert forall i :: 0 <= i < |steps| - 1 ==> steps[1..][i] == steps[i + 1];
      assert steps == [t] + steps[1..];
      if IsTaskStep(t) && t.k == k {
        OwnStep(s, t, limit, k);
      } else {
        OthersLeave(s, t, limit, k);
      }
      AfterDeciding(Next(s, t, limit), steps[1..], limit, k);
    }
  }

  /** The decision itself. */
  lemma {:induction false} DecidesWhenDue(s: State, k: nat, readOk: bool, limit: nat)
    requires Enabled(s, Decide(k, readOk), limit)
    ensures var pc := Next(s, Decide(k, readOk), limit).tasks[k].pc;
            if IsDue(s.tasks[k].target, s.rows, s.clock, readOk) then pc.Decided? else pc.Leaving?
  {
    DueIff(s.tasks[k].target, s.rows, s.clock);
  }

  predicate IsUndecided(pc: Pc) {
    pc.Waiting? || pc.Inside?
  }

  /** Until its decision a goroutine is undecided, and no row of its target is written by the scheduler. */
  lemma {:induction false} StaysUndecided(s: State, t: Step, limit: nat, k: nat)
    requires DistinctTasks(s) && Enabled(s, t, limit) && !t.BeginPass? && k < |s.tasks| && IsUndecided(s.tasks[k].pc)
    requires !(t.Decide? && t.k == k)
    ensures var s', id := Next(s, t, limit), s.tasks[k].target.id;
            && DistinctTasks(s') && k < |s'.tasks| && s'.tasks[k].target == s.tasks[k].target
            && IsUndecided(s'.tasks[k].pc) && t != Fail(k)
            && ScheduledRows(s'.rows, id) == ScheduledRows(s.rows, id)
  {
    if IsTaskStep(t) && t.k == k {
      OwnStep(s, t, limit, k);
    } else {
      OthersLeave(s, t, limit, k);
    }
  }

  /** What the decision of a goroutine comes to in the end. */
  lemma {:induction false} FromDecision(s: State, steps: seq<Step>, limit: nat, k: nat)
    requires DistinctTasks(s) && IsRun(s, steps, limit) && InOnePass(steps) && k < |s.tasks|
    requires steps != [] && steps[0].Decide? && steps[0].k == k
    requires var end := After(s, steps, limit); k < |end.tasks| && end.tasks[k].pc.Gone?
    ensures var id := s.tasks[k].target.id;
            ScheduledRows(After(s, steps, limit).rows, id) == ScheduledRows(s.rows, id) +
              if IsDue(s.tasks[k].target, s.rows, s.clock, steps[0].readOk) && !FailsCheck(steps, k) then 1 else 0
  {
    var t, rest := steps[0], steps[1..];
    assert forall j :: 0 <= j < |steps| - 1 ==> rest[j] == steps[j + 1];
    assert steps == [t] + rest;
    OwnStep(s, t, limit, k);
    DecidesWhenDue(s, k, t.readOk, limit);
    AfterDeciding(Next(s, t, limit), rest, limit, k);
  }

  lemma {:induction false} FirstSteps(s: State, steps: seq<Step>, limit: nat, j: nat)
    requires IsRun(s, steps, limit) && steps != [] && j <= |steps| - 1
    requires IsRun(Next(s, steps[0], limit), steps[1..][..j], limit)
    ensures IsRun(s, steps[..j + 1], limit)
    ensures After(s, steps[..j + 1], limit) == After(Next(s, steps[0], limit), steps[1..][..j], limit)
  {
    assert steps[..j + 1][0] == steps[0] && steps[..j + 1][1..] == steps[1..][..j];
  }

  /** From before its decision on. */
  lemma {:induction false} FromWaiting(s: State, steps: seq<Step>, limit: nat, k: nat) returns (i: nat)
    requires DistinctTasks(s) && IsRun(s, steps, limit) && InOnePass(steps) && k < |s.tasks|
    requires IsUndecided(s.tasks[k].pc)
    requires var end := After(s, steps, limit); k < |end.tasks| && end.tasks[k].pc.Gone?
    ensures i < |steps| && steps[i].Decide? && steps[i].k == k && IsRun(s, steps[..i], limit)
    ensures var d, id := After(s, steps[..i], limit), s.tasks[k].target.id;
            ScheduledRows(After(s, steps, limit).rows, id) == ScheduledRows(s.rows, id) +
              if IsDue(s.tasks[k].target, d.rows, d.clock, steps[i].readOk) && !FailsCheck(steps, k) then 1 else 0
    decreases |steps|
  {
    var t, rest := steps[0], steps[1..];
    if t.Decide? && t.k == k {
      i := 0;
      assert steps[..0] == [];
      FromDecision(s, steps, limit, k);
    } else {
      assert forall j :: 0 <= j < |steps| - 1 ==> rest[j] == steps[j + 1];
      assert steps == [t] + rest;
      StaysUndecided(s, t, limit, k);
      var j := FromWaiting(Next(s, t, limit), rest, limit, k);
      i := j + 1;
      FirstSteps(s, steps, limit, j);
    }
  }

  /** Main result: in a pass, every target whose goroutine is gone was decided on, and the scheduler has written exactly
      one row for it in the pass if it was due at that moment and its check did not fail, otherwise none. */
  lemma {:induction false} PassChecksWhatIsDue(s: State, targets: seq<Target>, steps: seq<Step>, limit: nat, k: nat)
    returns (i: nat)
    requires Enabled(s, BeginPass(targets), limit) && k < |targets|
    requires var s1 := Next(s, BeginPass(targets), limit); IsRun(s1, steps, limit) && InOnePass(steps)
    requires var end := After(Next(s, BeginPass(targets), limit), steps, limit);
             k < |end.tasks| && end.tasks[k].pc.Gone?
    ensures var s1 := Next(s, BeginPass(targets), limit);
            && i < |steps| && steps[i].Decide? && steps[i].k == k && IsRun(s1, steps[..i], limit)
            && var d, end := After(s1, steps[..i], limit), After(s1, steps, limit);
               ScheduledRows(end.rows, targets[k].id) == ScheduledRows(s.rows, targets[k].id) +
                 if IsDue(targets[k], d.rows, d.clock, steps[i].readOk) && !FailsCheck(steps, k) then 1 else 0
  {
    i := FromWaiting(Next(s, BeginPass(targets), limit), steps, limit, k);
  }
}
