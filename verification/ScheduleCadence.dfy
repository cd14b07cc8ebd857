/** How often a schedule runs: the due time re-bases on each ticked run, so executed ticked
    runs are an interval apart however overdue the row was
    (application_context/plugin_schedule_context.go and plugin_scheduler.go). */
module ScheduleCadence {
  import opened ExecutionPolicy
  import opened PluginSchedules
  import opened ScheduleProtocol

  /** A step on a row that stays and keeps its interval. Crashes, refused claims, lost
      races and statements that fail are all still there. */
  predicate Smooth(s: State, step: Step, every: int) {
    && !step.RowDeleted?
    && (step.Sync? && s.row.Some? ==> Interval(Synced(s.row.value, step.reg, step.owner)) == every)
  }

  ghost predicate Rebased(s: State, t: nat) {
    exists i :: 0 <= i < |s.rebased| && s.rebased[i].0 == t
  }

  /** Phases in which an executed ticked run has moved the due time, if its own statements
      succeeded, and those in which it has not yet. */
  predicate MustHaveRebased(run: Run) {
    || (IsAllow(run) && (run.phase.Executing? || run.phase.Recording? || Counted(run.phase)))
    || (run.kind == Ticked(Skip) && Counted(run.phase))
  }

  predicate CannotHaveRebased(run: Run) {
    || run.kind.Manual? || run.phase.Minted? || run.phase.Won?
    || run.phase.Advancing? || run.phase.AdvanceRead? || run.phase.Completing? || run.phase.CompleteRead?
    || (run.kind == Ticked(Skip) && run.phase.Executing?)
  }

  predicate PhaseTimes(run: Run, every: int) {
    match run.phase
    case Advancing(at) => at >= run.now
    case AdvanceRead(at, e) => at >= run.now && e == every
    case Completing(at, _) => at >= run.now
    case CompleteRead(at, _, e) => at >= run.now && e == every
    case _ => true
  }

  /** What holds of each run: a ticked holder's own start is at or past the due time. */
  ghost predicate RunInv(s: State, t: nat, every: int)
    requires t in s.runs && s.row.Some?
  {
    var run := s.runs[t];
    && PhaseTimes(run, every)
    && (HoldsClaim(run) && run.kind.Ticked? ==> s.row.value.nextDue <= run.now)
    && (CannotHaveRebased(run) ==> !Rebased(s, t))
  }

  /** Consecutive due-time changes are an interval apart. */
  predicate Spaced(rebased: seq<(nat, int)>, every: int) {
    forall i :: 0 < i < |rebased| ==> rebased[i].1 >= rebased[i - 1].1 + every
  }

  /** A run that moved the due time had claimed, so was started, no earlier than an interval
      after the change before its own. */
  predicate ClaimedAfter(rebased: seq<(nat, int)>, runs: map<nat, Run>, every: int) {
    forall i :: 0 < i < |rebased| && rebased[i].0 in runs ==> runs[rebased[i].0].now >= rebased[i - 1].1 + every
  }

  predicate DistinctRuns(rebased: seq<(nat, int)>) {
    forall i, j :: 0 <= i < j < |rebased| ==> rebased[i].0 != rebased[j].0
  }

  ghost predicate CadenceInv(s: State, every: int) {
    && s.row.Some? && Interval(s.row.value) == every
    && (s.rebased != [] ==> s.row.value.nextDue == s.rebased[|s.rebased| - 1].1 + every)
    && Spaced(s.rebased, every) && DistinctRuns(s.rebased) && ClaimedAfter(s.rebased, s.runs, every)
    && (forall i :: 0 <= i < |s.rebased| ==> s.rebased[i].0 in s.runs)
    && (forall t :: t in s.runs ==> RunInv(s, t, every))
  }

  predicate Rebases(step: Step) {
    step.WriteAdvance? || step.WriteComplete?
  }

  /** Every other step leaves the due time, its history and the row's interval alone. */
  lemma QuietSteps(s: State, step: Step, every: int)
    requires Enabled(s, step) && Smooth(s, step, every) && !Rebases(step)
    requires s.row.Some? && Interval(s.row.value) == every
    ensures Apply(s, step).rebased == s.rebased && Apply(s, step).row.Some?
    ensures Apply(s, step).row.value.nextDue == s.row.value.nextDue
    ensures Interval(Apply(s, step).row.value) == every
  {
  }

  /** The two that re-base are done by the holder, for itself, after the due time. */
  lemma RebasingStep(s: State, step: Step, every: int)
    requires Enabled(s, step) && Sane(s) && HolderOnRow(s) && CadenceInv(s, every) && Rebases(step)
    ensures HoldsClaim(s.runs[step.t]) && s.runs[step.t].kind.Ticked? && !Rebased(s, step.t)
    ensures Apply(s, step).rebased == s.rebased + [(step.t, s.runs[step.t].phase.at)]
    ensures s.row.value.nextDue <= s.runs[step.t].now <= s.runs[step.t].phase.at
    ensures Apply(s, step).row.Some? && Interval(Apply(s, step).row.value) == every
    ensures Apply(s, step).row.value.nextDue == s.runs[step.t].phase.at + every
  {
    var t := step.t;
    assert HoldsClaim(s.runs[t]) && s.row.value.token == t;
    assert RunInv(s, t, every) && PhaseFits(s.runs[t]);
  }

  lemma SpacedStep(s: State, step: Step, every: int)
    requires Enabled(s, step) && Sane(s) && HolderOnRow(s) && CadenceInv(s, every) && Rebases(step)
    ensures Spaced(Apply(s, step).rebased, every) && DistinctRuns(Apply(s, step).rebased)
  {
    RebasingStep(s, step, every);
    assert forall i :: 0 <= i < |s.rebased| ==> s.rebased[i].0 != step.t;
  }

  /** A run that does not move keeps its facts: if another one re-bases, this one holds nothing. */
  lemma BystanderKeeps(s: State, step: Step, u: nat, every: int)
    requires Enabled(s, step) && Smooth(s, step, every) && CadenceInv(s, every)
    requires Sane(s) && HolderOnRow(s) && AtMostOneHolder(s)
    requires u in s.runs && u != Actor(step) && Apply(s, step).row.Some? && u in Apply(s, step).runs
    requires Apply(s, step).runs[u] == s.runs[u]
    ensures RunInv(Apply(s, step), u, every)
  {
    assert RunInv(s, u, every);
    if Rebases(step) {
      RebasingStep(s, step, every);
      RebasedAppends(s, Apply(s, step), step.t, s.runs[step.t].phase.at);
    } else {
      QuietSteps(s, step, every);
    }
  }

  lemma RebasedAppends(s: State, next: State, t: nat, at: int)
    requires next.rebased == s.rebased + [(t, at)]
    ensures forall u :: Rebased(next, u) <==> u == t || Rebased(s, u)
  {
    assert next.rebased[|s.rebased|] == (t, at);
    forall u ensures Rebased(next, u) <==> u == t || Rebased(s, u) {
      if Rebased(s, u) {
        var i :| 0 <= i < |s.rebased| && s.rebased[i].0 == u;
        assert next.rebased[i].0 == u;
      }
    }
  }

  lemma OthersUnmoved(s: State, step: Step, u: nat)
    requires Enabled(s, step) && u != Actor(step)
    ensures u in Apply(s, step).runs <==> u in s.runs
    ensures u in s.runs ==> Apply(s, step).runs[u] == s.runs[u]
  {
  }

  /** The run that moves by a step that re-bases nothing. */
  lemma ActorKeeps(s: State, step: Step, t: nat, every: int)
    requires Enabled(s, step) && Smooth(s, step, every) && CadenceInv(s, every) && !Rebases(step)
    requires Sane(s) && HolderOnRow(s) && t != 0 && t == Actor(step) && !step.Mint?
    ensures t in Apply(s, step).runs && Apply(s, step).row.Some? && RunInv(Apply(s, step), t, every)
  {
    QuietSteps(s, step, every);
    assert RunInv(s, t, every) && PhaseFits(s.runs[t]);
    assert Rebased(Apply(s, step), t) <==> Rebased(s, t);
  }

  lemma NewRunKeeps(s: State, step: Step, every: int)
    requires Enabled(s, step) && CadenceInv(s, every) && step.Mint?
    ensures step.t in Apply(s, step).runs && Apply(s, step).row.Some? && RunInv(Apply(s, step), step.t, every)
  {
    assert !Rebased(s, step.t);
    assert !Rebased(Apply(s, step), step.t);
  }

  lemma RebaserKeeps(s: State, step: Step, every: int)
    requires Enabled(s, step) && CadenceInv(s, every) && Rebases(step)
    requires Sane(s) && HolderOnRow(s)
    ensures step.t in Apply(s, step).runs && Apply(s, step).row.Some? && RunInv(Apply(s, step), step.t, every)
  {
    RebasingStep(s, step, every);
    RebasedAppends(s, Apply(s, step), step.t, s.runs[step.t].phase.at);
    assert PhaseFits(s.runs[step.t]);
  }

  lemma CadenceStep(s: State, step: Step, every: int)
    requires Enabled(s, step) && Smooth(s, step, every) && CadenceInv(s, every)
    requires Sane(s) && HolderOnRow(s) && AtMostOneHolder(s)
    ensures CadenceInv(Apply(s, step), every)
  {
    var next := Apply(s, step);
    if Rebases(step) {
      RebasingStep(s, step, every);
      SpacedStep(s, step, every);
    } else {
      QuietSteps(s, step, every);
    }
    ClaimedAfterStep(s, step, every);
    forall t | t in next.runs ensures RunInv(next, t, every) {
      if t != Actor(step) {
        OthersUnmoved(s, step, t);
        BystanderKeeps(s, step, t, every);
      } else if step.Mint? {
        NewRunKeeps(s, step, every);
      } else if Rebases(step) {
        RebaserKeeps(s, step, every);
      } else {
        ActorIsRun(s, step, t);
        ActorKeeps(s, step, t, every);
      }
    }
    forall i | 0 <= i < |next.rebased| ensures next.rebased[i].0 in next.runs {
      RunsStay(s, step);
    }
  }

  lemma ClaimedAfterStep(s: State, step: Step, every: int)
    requires Enabled(s, step) && Smooth(s, step, every) && CadenceInv(s, every)
    requires Sane(s) && HolderOnRow(s)
    ensures ClaimedAfter(Apply(s, step).rebased, Apply(s, step).runs, every)
  {
    ClaimInstantsStay(s, step);
    if Rebases(step) {
      RebasingStep(s, step, every);
    } else {
      QuietSteps(s, step, every);
    }
  }

  lemma ClaimInstantsStay(s: State, step: Step)
    requires Enabled(s, step)
    ensures forall t :: t in s.runs ==> t in Apply(s, step).runs && Apply(s, step).runs[t].now == s.runs[t].now
  {
  }

  lemma ActorIsRun(s: State, step: Step, t: nat)
    requires Enabled(s, step) && Sane(s) && t in Apply(s, step).runs && t == Actor(step)
    ensures t != 0
  {
    SaneStep(s, step);
  }

  lemma RunsStay(s: State, step: Step)
    requires Enabled(s, step)
    ensures forall t :: t in s.runs ==> t in Apply(s, step).runs
  {
  }

  ghost predicate SmoothUpTo(states: seq<State>, steps: seq<Step>, n: nat, every: int)
    requires n < |states| && |states| == |steps| + 1
  {
    && states[0].row.Some? && Interval(states[0].row.value) == every
    && (forall i :: 0 <= i < n ==> LeasesKept(states[i]) && Smooth(states[i], steps[i], every))
  }

  lemma {:induction false} Cadence(states: seq<State>, steps: seq<Step>, n: nat, every: int)
    requires IsBehavior(states, steps) && n < |states| && SmoothUpTo(states, steps, n, every)
    ensures CadenceInv(states[n], every)
  {
    if n > 0 {
      Cadence(states, steps, n - 1, every);
      LeaseSafety(states, steps, n - 1);
      assert Follows(states[n - 1], steps[n - 1], states[n]);
      CadenceStep(states[n - 1], steps[n - 1], every);
    }
  }

  /** Of two runs that moved the due time, each did so once, at completion under skip and at
      dispatch under allow; and the later one was not even started until an interval after
      the earlier one had. */
  lemma RebasingRunsAreApart(states: seq<State>, steps: seq<Step>, n: nat, every: int, t: nat, u: nat)
    returns (i: nat, j: nat)
    requires IsBehavior(states, steps) && n < |states| && SmoothUpTo(states, steps, n, every)
    requires Rebased(states[n], t) && Rebased(states[n], u) && t != u
    ensures i < |states[n].rebased| && j < |states[n].rebased|
    ensures states[n].rebased[i].0 == t && states[n].rebased[j].0 == u && t in states[n].runs && u in states[n].runs
    ensures var a, b := states[n].rebased[i].1, states[n].rebased[j].1;
      || (i < j && a + every <= b && a + every <= states[n].runs[u].now)
      || (j < i && b + every <= a && b + every <= states[n].runs[t].now)
    ensures forall k :: 0 <= k < |states[n].rebased| && states[n].rebased[k].0 == t ==> k == i
  {
    Cadence(states, steps, n, every);
    var s := states[n];
    i :| 0 <= i < |s.rebased| && s.rebased[i].0 == t;
    j :| 0 <= j < |s.rebased| && s.rebased[j].0 == u;
    if i < j { StartedApart(s, every, i, j); } else { StartedApart(s, every, j, i); }
  }

  lemma StartedApart(s: State, every: int, i: nat, j: nat)
    requires CadenceInv(s, every) && every > 0 && i < j < |s.rebased|
    ensures s.rebased[j].0 in s.runs
    ensures s.rebased[i].1 + every <= s.rebased[j].1 && s.rebased[i].1 + every <= s.runs[s.rebased[j].0].now
  {
    SpacedApart(s.rebased, every, i, j);
    if i + 1 < j { SpacedApart(s.rebased, every, i, j - 1); }
  }

  /** With leases kept, only a failed statement of its own can keep an executed ticked run
      from moving the due time. */
  lemma {:induction false} ExecutedRunsRebase(states: seq<State>, steps: seq<Step>, n: nat, t: nat)
    requires IsBehavior(states, steps) && n < |states| && states[0].row.Some?
    requires forall i :: 0 <= i < n ==> LeasesKept(states[i]) && !steps[i].RowDeleted?
    requires forall i :: 0 <= i < n ==> !(steps[i].StatementFails? && steps[i].t == t)
    ensures t in states[n].runs && MustHaveRebased(states[n].runs[t]) ==> Rebased(states[n], t)
    ensures states[n].row.Some?
  {
    if n > 0 {
      ExecutedRunsRebase(states, steps, n - 1, t);
      LeaseSafety(states, steps, n - 1);
      RebasesIfExecuted(states[n - 1], steps[n - 1], states[n], t);
    }
  }

  lemma RebasesIfExecuted(s: State, step: Step, next: State, t: nat)
    requires Follows(s, step, next) && Sane(s) && HolderOnRow(s) && s.row.Some? && !step.RowDeleted?
    requires !(step.StatementFails? && step.t == t)
    requires t in s.runs && MustHaveRebased(s.runs[t]) ==> Rebased(s, t)
    ensures next.row.Some?
    ensures t in next.runs && MustHaveRebased(next.runs[t]) ==> Rebased(next, t)
  {
    RebasedGrows(s, step, next);
    if t in s.runs && !MustHaveRebased(s.runs[t]) && t in next.runs && MustHaveRebased(next.runs[t]) {
      BecomesExecuted(s, step, next, t);
      assert next.rebased[|s.rebased|].0 == t;
    } else {
      if t !in s.runs && t in next.runs { NewRunsHaveNotExecuted(s, step, next, t); }
    }
  }

  lemma RebasedGrows(s: State, step: Step, next: State)
    requires Follows(s, step, next) && s.row.Some? && !step.RowDeleted?
    ensures next.row.Some? && s.rebased <= next.rebased
    ensures forall t :: Rebased(s, t) ==> Rebased(next, t)
  {
    forall t | Rebased(s, t) ensures Rebased(next, t) {
      var i :| 0 <= i < |s.rebased| && s.rebased[i].0 == t;
      assert next.rebased[i].0 == t;
    }
  }

  lemma BecomesExecuted(s: State, step: Step, next: State, t: nat)
    requires Follows(s, step, next) && HolderOnRow(s) && s.row.Some? && t in s.runs && t in next.runs
    requires PhaseFits(s.runs[t]) && !(step.StatementFails? && step.t == t)
    requires !MustHaveRebased(s.runs[t]) && MustHaveRebased(next.runs[t])
    ensures |next.rebased| == |s.rebased| + 1 && next.rebased[|s.rebased|].0 == t
  {
    if t != Actor(step) { OthersUnmoved(s, step, t); }
  }

  lemma NewRunsHaveNotExecuted(s: State, step: Step, next: State, t: nat)
    requires Follows(s, step, next) && t !in s.runs && t in next.runs
    ensures !MustHaveRebased(next.runs[t])
  {
  }

  lemma {:induction false} SpacedApart(rebased: seq<(nat, int)>, every: int, i: nat, j: nat)
    requires Spaced(rebased, every) && every > 0 && i < j < |rebased|
    ensures rebased[j].1 >= rebased[i].1 + every
    decreases j - i
  {
    if i + 1 < j {
      SpacedApart(rebased, every, i, j - 1);
    }
  }

  /** How many due-time changes fall in the closed window from a to b. */
  function CountWithin(rebased: seq<(nat, int)>, a: int, b: int): nat {
    if rebased == [] then 0
    else
      var last := rebased[|rebased| - 1].1;
      CountWithin(rebased[..|rebased| - 1], a, b) + if a <= last <= b then 1 else 0
  }

  ghost predicate AllBy(rebased: seq<(nat, int)>, c: int) {
    forall i :: 0 <= i < |rebased| ==> rebased[i].1 <= c
  }

  lemma {:induction false} CountBelow(rebased: seq<(nat, int)>, a: int, b: int, c: int)
    requires AllBy(rebased, c) && c <= b
    ensures CountWithin(rebased, a, b) == CountWithin(rebased, a, c)
  {
    if rebased != [] {
      CountBelow(rebased[..|rebased| - 1], a, b, c);
    }
  }

  lemma {:induction false} NoneBelow(rebased: seq<(nat, int)>, a: int, b: int)
    requires b < a
    ensures CountWithin(rebased, a, b) == 0
  {
    if rebased != [] {
      NoneBelow(rebased[..|rebased| - 1], a, b);
    }
  }

  lemma {:induction false} SpacedCount(rebased: seq<(nat, int)>, every: int, a: int, b: int)
    requires Spaced(rebased, every) && every > 0 && a <= b
    ensures CountWithin(rebased, a, b) * every <= b - a + every
    decreases |rebased|
  {
    if rebased != [] {
      var n := |rebased| - 1;
      var init, last := rebased[..n], rebased[n].1;
      if a <= last <= b {
        InitAllBy(rebased, every);
        CountBelow(init, a, b, last - every);
        if a <= last - every {
          SpacedCount(init, every, a, last - every);
        } else {
          NoneBelow(init, a, last - every);
        }
        OneMore(CountWithin(init, a, b), every);
      } else {
        SpacedCount(init, every, a, b);
      }
    }
  }

  lemma InitAllBy(rebased: seq<(nat, int)>, every: int)
    requires Spaced(rebased, every) && every > 0 && rebased != []
    ensures AllBy(rebased[..|rebased| - 1], rebased[|rebased| - 1].1 - every)
  {
    forall i | 0 <= i < |rebased| - 1 ensures rebased[i].1 <= rebased[|rebased| - 1].1 - every {
      SpacedApart(rebased, every, i, |rebased| - 1);
    }
  }

  ghost predicate RebasedWithin(rebased: seq<(nat, int)>, t: nat, a: int, b: int) {
    exists i :: 0 <= i < |rebased| && rebased[i].0 == t && a <= rebased[i].1 <= b
  }

  lemma {:induction false} RunsWithin(rebased: seq<(nat, int)>, runs: set<nat>, a: int, b: int)
    requires forall t :: t in runs ==> RebasedWithin(rebased, t, a, b)
    ensures |runs| <= CountWithin(rebased, a, b)
  {
    if rebased == [] {
      assert forall t :: t in runs ==> !RebasedWithin(rebased, t, a, b);
      assert runs == {};
    } else {
      var n := |rebased| - 1;
      var rest := if a <= rebased[n].1 <= b then runs - {rebased[n].0} else runs;
      forall t | t in rest ensures RebasedWithin(rebased[..n], t, a, b) {
        var i :| 0 <= i < |rebased| && rebased[i].0 == t && a <= rebased[i].1 <= b;
        assert rebased[..n][i] == rebased[i];
      }
      RunsWithin(rebased[..n], rest, a, b);
      if a <= rebased[n].1 <= b {
        assert runs <= rest + {rebased[n].0};
        assert |runs| <= |rest| + 1;
      }
    }
  }

  /** However overdue the row was, any window of length L holds at most L / every + 1
      runs that moved the due time in it. */
  lemma AtMostOnePerInterval(states: seq<State>, steps: seq<Step>, n: nat, every: int, executed: set<nat>,
    from: int, length: nat)
    requires IsBehavior(states, steps) && n < |states| && SmoothUpTo(states, steps, n, every)
    requires forall t :: t in executed ==> RebasedWithin(states[n].rebased, t, from, from + length)
    ensures |executed| <= length / every + 1
  {
    Cadence(states, steps, n, every);
    var count := CountWithin(states[n].rebased, from, from + length);
    RunsWithin(states[n].rebased, executed, from, from + length);
    SpacedCount(states[n].rebased, every, from, from + length);
    if count > 0 {
      OneMore(count - 1, every);
      QuotientBound(count - 1, every, length);
    }
  }

  // ---- the run counter ----

  /** The step is a run's recording statement, and it reaches the row. */
  predicate RecordLands(s: State, step: Step) {
    s.row.Some? && (step.WriteRecord? || (step.WriteComplete? && s.row.value.token == step.t))
  }

  /** The runs whose recording statement has landed. */
  function LandedRuns(states: seq<State>, steps: seq<Step>, n: nat): set<nat>
    requires n < |states| == |steps| + 1
  {
    if n == 0 then {}
    else if RecordLands(states[n - 1], steps[n - 1]) then LandedRuns(states, steps, n - 1) + {steps[n - 1].t}
    else LandedRuns(states, steps, n - 1)
  }

  predicate PastRecording(s: State, t: nat) {
    t in s.runs && (s.runs[t].phase.Releasing? || s.runs[t].phase.Over?)
  }

  lemma PastRecordingStays(s: State, step: Step, next: State, t: nat)
    requires Follows(s, step, next) && PastRecording(s, t)
    ensures PastRecording(next, t) && !(RecordLands(s, step) && step.t == t)
  {
  }

  lemma CounterBy(s: State, step: Step, next: State)
    requires Follows(s, step, next) && s.row.Some? && !step.RowDeleted?
    ensures next.row.Some?
    ensures next.row.value.runs == s.row.value.runs + if RecordLands(s, step) then 1 else 0
    ensures RecordLands(s, step) ==> PastRecording(next, step.t)
  {
  }

  /** In every behavior in which the row stays, whatever fails and whoever keeps the lease,
      the counter moves by one for each run, ticked or manual, whose recording statement
      landed, and for nothing else. */
  lemma {:induction false} RunsCountsEachRunOnce(states: seq<State>, steps: seq<Step>, n: nat)
    requires IsBehavior(states, steps) && n < |states| && states[0].row.Some?
    requires forall i :: 0 <= i < n ==> !steps[i].RowDeleted?
    ensures states[n].row.Some?
    ensures states[n].row.value.runs == states[0].row.value.runs + |LandedRuns(states, steps, n)|
    ensures forall t :: t in LandedRuns(states, steps, n) ==> PastRecording(states[n], t)
  {
    if n > 0 {
      RunsCountsEachRunOnce(states, steps, n - 1);
      var s, step, next := states[n - 1], steps[n - 1], states[n];
      assert Follows(s, step, next);
      var landed := LandedRuns(states, steps, n - 1);
      forall t | t in landed ensures PastRecording(next, t) && !(RecordLands(s, step) && step.t == t) {
        PastRecordingStays(s, step, next, t);
      }
      CounterBy(s, step, next);
    }
  }

  /** And with leases kept, a run whose own statements all succeeded is counted by the time
      it is over. */
  lemma {:induction false} FinishedRunsAreCounted(states: seq<State>, steps: seq<Step>, n: nat, t: nat)
    requires IsBehavior(states, steps) && n < |states| && states[0].row.Some?
    requires forall i :: 0 <= i < n ==> LeasesKept(states[i]) && !steps[i].RowDeleted?
    requires forall i :: 0 <= i < n ==> !(steps[i].StatementFails? && steps[i].t == t)
    requires t in states[n].runs && Counted(states[n].runs[t].phase)
    ensures t in LandedRuns(states, steps, n)
  {
    if n > 0 {
      var s, step, next := states[n - 1], steps[n - 1], states[n];
      assert Follows(s, step, next);
      if t in s.runs && Counted(s.runs[t].phase) {
        FinishedRunsAreCounted(states, steps, n - 1, t);
      } else {
        RunsCountsEachRunOnce(states, steps, n - 1);
        LeaseSafety(states, steps, n - 1);
        BecomesCounted(s, step, next, t);
      }
    }
  }

  lemma BecomesCounted(s: State, step: Step, next: State, t: nat)
    requires Follows(s, step, next) && HolderOnRow(s) && s.row.Some? && t in next.runs
    requires !(step.StatementFails? && step.t == t)
    requires !(t in s.runs && Counted(s.runs[t].phase)) && Counted(next.runs[t].phase)
    ensures RecordLands(s, step) && step.t == t
  {
    if t != Actor(step) { OthersUnmoved(s, step, t); }
  }
}
