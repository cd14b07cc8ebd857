/** Concurrent enables and disables of one plugin in one process: every operation writes
    the stored column first, acts, and then settles the column under one mutex
    (application_context/plugin_state_context.go; the load itself is in
    plugin_system/manager.go). */
module PluginState {
  import opened Outcomes

  const SETTLE_ATTEMPTS: nat := 3

  /** Claimed to LoadEnded is the stretch that "enable in flight" covers. */
  datatype Phase =
    | Wrote
    | Claimed
    | Loading
    | LoadEnded
    | Settling
    | Locked(attempt: nat)
    | Checked(attempt: nat)
    | ReadBack(loaded: bool, attempt: nat)
    | Done

  datatype Op = Op(enable: bool, phase: Phase)

  /** `column` is the stored flag and `loaded` the truth in this process's memory.
      `unsettled` says that the last settling attempt that ran to an end failed. */
  datatype State = State(column: bool, loaded: bool, inFlight: Option<nat>, mutex: Option<nat>,
    ops: map<nat, Op>, unsettled: bool)

  datatype Step =
    | Begin(t: nat, enable: bool)
    | ClaimLoad(t: nat)
    | RefuseLoad(t: nat)
    | CheckLoaded(t: nat)
    | Publish(t: nat)
    | FailLoad(t: nat)
    | EndLoad(t: nat)
    | Unload(t: nat)
    | Refuse(t: nat)
    | Lock(t: nat)
    | CheckFlight(t: nat)
    | ReadLoaded(t: nat)
    | Settle(t: nat)
    | SettleFails(t: nat)

  predicate At(s: State, t: nat, enable: bool, phase: Phase) {
    t in s.ops && s.ops[t] == Op(enable, phase)
  }

  predicate Enabled(s: State, step: Step) {
    match step
    case Begin(t, _) => t !in s.ops
    case ClaimLoad(t) => At(s, t, true, Wrote)
    case RefuseLoad(t) => At(s, t, true, Claimed)
    case CheckLoaded(t) => At(s, t, true, Claimed)
    case Publish(t) => At(s, t, true, Loading)
    case FailLoad(t) => At(s, t, true, Loading)
    case EndLoad(t) => At(s, t, true, LoadEnded)
    case Unload(t) => At(s, t, false, Wrote) && s.loaded
    case Refuse(t) => t in s.ops && s.ops[t].phase.Wrote?
    case Lock(t) => t in s.ops && s.ops[t].phase.Settling? && s.mutex.None?
    case CheckFlight(t) => t in s.ops && s.ops[t].phase.Locked?
    case ReadLoaded(t) => t in s.ops && s.ops[t].phase.Checked?
    case Settle(t) => t in s.ops && s.ops[t].phase.ReadBack?
    case SettleFails(t) => t in s.ops && s.ops[t].phase.ReadBack?
  }

  function To(s: State, t: nat, phase: Phase): State
    requires t in s.ops
  {
    s.(ops := s.ops[t := s.ops[t].(phase := phase)])
  }

  function Apply(s: State, step: Step): State
    requires Enabled(s, step)
  {
    match step
    case Begin(t, enable) => s.(column := enable, ops := s.ops[t := Op(enable, Wrote)])
    case ClaimLoad(t) =>
      if s.inFlight.Some? then To(s, t, Settling) else To(s, t, Claimed).(inFlight := Some(t))
    case RefuseLoad(t) => To(s, t, LoadEnded)
    case CheckLoaded(t) => To(s, t, if s.loaded then LoadEnded else Loading)
    case Publish(t) => To(s, t, LoadEnded).(loaded := true)
    case FailLoad(t) => To(s, t, LoadEnded)
    case EndLoad(t) => To(s, t, Settling).(inFlight := None)
    case Unload(t) => To(s, t, Settling).(loaded := false)
    case Refuse(t) => To(s, t, Settling)
    case Lock(t) => To(s, t, Locked(0)).(mutex := Some(t))
    case CheckFlight(t) =>
      if s.inFlight.Some? then To(s, t, Done).(mutex := None) else To(s, t, Checked(s.ops[t].phase.attempt))
    case ReadLoaded(t) => To(s, t, ReadBack(s.loaded, s.ops[t].phase.attempt))
    case Settle(t) => To(s, t, Done).(column := s.ops[t].phase.loaded, mutex := None, unsettled := false)
    case SettleFails(t) =>
      var attempt := s.ops[t].phase.attempt + 1;
      if attempt < SETTLE_ATTEMPTS then To(s, t, Locked(attempt))
      else To(s, t, Done).(mutex := None, unsettled := true)
  }

  /** No operation has begun. Startup may have left an enabled plugin that failed to load
      or stalled, with its column still on; that counts as not settled. */
  predicate Init(s: State) {
    && s.ops == map[] && s.inFlight.None? && s.mutex.None?
    && (s.unsettled <==> s.column != s.loaded)
  }

  predicate Follows(s: State, step: Step, next: State) {
    Enabled(s, step) && next == Apply(s, step)
  }

  ghost predicate IsBehavior(states: seq<State>, steps: seq<Step>) {
    && |states| == |steps| + 1 && Init(states[0])
    && forall i :: 0 <= i < |steps| ==> Follows(states[i], steps[i], states[i + 1])
  }

  // ---- the invariant ----

  predicate Pending(s: State, t: nat) {
    t in s.ops && !s.ops[t].phase.Done?
  }

  predicate InLoad(phase: Phase) {
    phase.Claimed? || phase.Loading? || phase.LoadEnded?
  }

  predicate InMutex(phase: Phase) {
    phase.Locked? || phase.Checked? || phase.ReadBack?
  }

  /** Who is in flight and who holds the mutex is what the operations' own phases say. */
  ghost predicate LoadTracked(s: State) {
    && (forall t :: t in s.ops && InLoad(s.ops[t].phase) ==> s.inFlight == Some(t) && s.ops[t].enable)
    && (s.inFlight.Some? ==> s.inFlight.value in s.ops && InLoad(s.ops[s.inFlight.value].phase))
  }

  ghost predicate MutexTracked(s: State) {
    && (forall t :: t in s.ops && InMutex(s.ops[t].phase) ==> s.mutex == Some(t) && TriesLeft(s.ops[t].phase))
    && (s.mutex.Some? ==> s.mutex.value in s.ops && InMutex(s.ops[s.mutex.value].phase))
  }

  ghost predicate Tracked(s: State) {
    LoadTracked(s) && MutexTracked(s)
  }

  predicate TriesLeft(phase: Phase)
    requires InMutex(phase)
  {
    phase.attempt < SETTLE_ATTEMPTS
  }

  ghost predicate OtherPending(s: State, t: nat) {
    exists u :: u != t && Pending(s, u)
  }

  /** What an operation read is still true, or somebody else will settle after it. */
  ghost predicate ReadIsHonest(s: State) {
    forall t :: t in s.ops && s.ops[t].phase.ReadBack? ==>
      s.ops[t].phase.loaded == s.loaded || OtherPending(s, t)
  }

  ghost predicate Agrees(s: State) {
    s.column == s.loaded || s.unsettled || exists t :: Pending(s, t)
  }

  /** A step changes the operation that takes it and no other. */
  lemma OnlyActorMoves(s: State, step: Step)
    requires Enabled(s, step)
    ensures step.t in Apply(s, step).ops
    ensures Apply(s, step).ops == s.ops[step.t := Apply(s, step).ops[step.t]]
  {
  }

  lemma LoadTrackedStep(s: State, step: Step)
    requires Enabled(s, step) && LoadTracked(s)
    ensures LoadTracked(Apply(s, step))
  {
    OnlyActorMoves(s, step);
    ActorLoad(s, step);
  }

  lemma ActorLoad(s: State, step: Step)
    requires Enabled(s, step) && LoadTracked(s)
    ensures var next := Apply(s, step);
      && step.t in next.ops
      && (InLoad(next.ops[step.t].phase) ==> next.ops[step.t].enable)
      && (InLoad(next.ops[step.t].phase) <==> next.inFlight == Some(step.t))
      && (next.inFlight == s.inFlight || s.inFlight in {None, Some(step.t)})
      && (next.inFlight == s.inFlight || next.inFlight in {None, Some(step.t)})
  {
  }

  lemma MutexTrackedStep(s: State, step: Step)
    requires Enabled(s, step) && MutexTracked(s)
    ensures MutexTracked(Apply(s, step))
  {
    OnlyActorMoves(s, step);
    ActorMutex(s, step);
  }

  lemma ActorMutex(s: State, step: Step)
    requires Enabled(s, step) && MutexTracked(s)
    ensures var next := Apply(s, step);
      && step.t in next.ops
      && (InMutex(next.ops[step.t].phase) ==> TriesLeft(next.ops[step.t].phase))
      && (InMutex(next.ops[step.t].phase) <==> next.mutex == Some(step.t))
      && (next.mutex == s.mutex || s.mutex in {None, Some(step.t)})
      && (next.mutex == s.mutex || next.mutex in {None, Some(step.t)})
  {
  }

  /** While one operation holds the mutex, no other one can finish. */
  lemma PendingStays(s: State, step: Step, u: nat)
    requires Enabled(s, step) && Pending(s, u) && step.t != u
    ensures Pending(Apply(s, step), u)
  {
  }

  lemma ActorOutsideMutexStays(s: State, step: Step, t: nat)
    requires Enabled(s, step) && Tracked(s)
    requires t in s.ops && s.ops[t].phase.ReadBack? && step.t != t
    ensures Pending(Apply(s, step), step.t)
    ensures Apply(s, step).ops[t] == s.ops[t]
  {
  }

  lemma HonestStep(s: State, step: Step)
    requires Enabled(s, step) && Tracked(s) && ReadIsHonest(s)
    ensures ReadIsHonest(Apply(s, step))
  {
    var next := Apply(s, step);
    forall t | t in next.ops && next.ops[t].phase.ReadBack?
      ensures next.ops[t].phase.loaded == next.loaded || OtherPending(next, t)
    {
      if step.t != t {
        ActorOutsideMutexStays(s, step, t);
      } else {
        assert step.ReadLoaded?;
      }
    }
  }

  lemma AgreesStep(s: State, step: Step)
    requires Enabled(s, step) && Tracked(s) && ReadIsHonest(s) && Agrees(s)
    ensures Agrees(Apply(s, step))
  {
    var next := Apply(s, step);
    if !Pending(next, step.t) {
      FinishingStep(s, step);
    }
  }

  /** An operation ends in one of three ways; each leaves agreement, somebody else still
      to settle, or a recorded failure. */
  lemma FinishingStep(s: State, step: Step)
    requires Enabled(s, step) && Tracked(s) && ReadIsHonest(s)
    requires !Pending(Apply(s, step), step.t)
    ensures Agrees(Apply(s, step))
  {
    var next := Apply(s, step);
    match step
    case CheckFlight(t) =>
      assert Pending(next, s.inFlight.value);
    case Settle(t) =>
      if s.ops[t].phase.loaded != s.loaded {
        var u :| u != t && Pending(s, u);
        PendingStays(s, step, u);
      }
    case SettleFails(t) =>
      assert next.unsettled;
  }

  /** Every reachable state: the column says what is loaded, or somebody is still to
      settle it, or a settling write failed for good. */
  lemma {:induction false} AlwaysAgrees(states: seq<State>, steps: seq<Step>, n: nat)
    requires IsBehavior(states, steps) && n < |states|
    ensures Tracked(states[n]) && ReadIsHonest(states[n]) && Agrees(states[n])
  {
    if n > 0 {
      AlwaysAgrees(states, steps, n - 1);
      assert Follows(states[n - 1], steps[n - 1], states[n]);
      LoadTrackedStep(states[n - 1], steps[n - 1]);
      MutexTrackedStep(states[n - 1], steps[n - 1]);
      HonestStep(states[n - 1], steps[n - 1]);
      AgreesStep(states[n - 1], steps[n - 1]);
    }
  }

  /** One load at a time, and never on top of a loaded plugin: a publish always finds the
      plugin not loaded. */
  lemma {:induction false} PublishesOnlyUnloaded(states: seq<State>, steps: seq<Step>, n: nat)
    requires IsBehavior(states, steps) && n < |states|
    ensures forall t :: t in states[n].ops && states[n].ops[t].phase.Loading? ==> !states[n].loaded
  {
    if n > 0 {
      PublishesOnlyUnloaded(states, steps, n - 1);
      AlwaysAgrees(states, steps, n - 1);
      assert Follows(states[n - 1], steps[n - 1], states[n]);
      PublishStep(states[n - 1], steps[n - 1]);
    }
  }

  lemma PublishStep(s: State, step: Step)
    requires Enabled(s, step) && LoadTracked(s)
    requires forall t :: t in s.ops && s.ops[t].phase.Loading? ==> !s.loaded
    ensures forall t :: t in Apply(s, step).ops && Apply(s, step).ops[t].phase.Loading? ==> !Apply(s, step).loaded
  {
    OnlyActorMoves(s, step);
  }

  predicate GivesUp(s: State, step: Step) {
    step.SettleFails? && step.t in s.ops && s.ops[step.t].phase.ReadBack?
    && s.ops[step.t].phase.attempt + 1 >= SETTLE_ATTEMPTS
  }

  /** Quiescent agreement: when nothing is pending, and since the last success, or since a
      start in agreement, no settling write failed on every attempt, the stored flag is the
      truth. */
  lemma QuiescentAgreement(states: seq<State>, steps: seq<Step>, m: nat, n: nat)
    requires IsBehavior(states, steps) && m <= n < |states|
    requires if m == 0 then states[0].column == states[0].loaded else steps[m - 1].Settle?
    requires forall i :: m <= i < n ==> !GivesUp(states[i], steps[i])
    requires forall t :: !Pending(states[n], t)
    ensures states[n].column == states[n].loaded
  {
    AlwaysAgrees(states, steps, n);
    StaysSettled(states, steps, m, n);
  }

  lemma {:induction false} StaysSettled(states: seq<State>, steps: seq<Step>, m: nat, n: nat)
    requires IsBehavior(states, steps) && m <= n < |states|
    requires if m == 0 then states[0].column == states[0].loaded else steps[m - 1].Settle?
    requires forall i :: m <= i < n ==> !GivesUp(states[i], steps[i])
    ensures !states[n].unsettled
    decreases n - m
  {
    if m < n {
      StaysSettled(states, steps, m, n - 1);
      UnsettledBy(states[n - 1], steps[n - 1], states[n]);
    } else if m > 0 {
      UnsettledBy(states[m - 1], steps[m - 1], states[m]);
    }
  }

  lemma UnsettledBy(s: State, step: Step, next: State)
    requires Follows(s, step, next)
    ensures next.unsettled == if step.Settle? then false else s.unsettled || GivesUp(s, step)
  {
  }

  /** What was last written to the column: the wish of the operation begun last, or the
      value settled last. */
  function LastWritten(states: seq<State>, steps: seq<Step>, n: nat): bool
    requires n < |states| == |steps| + 1
  {
    if n == 0 then states[0].column
    else
      var s, step := states[n - 1], steps[n - 1];
      if step.Begin? then step.enable
      else if step.Settle? && step.t in s.ops && s.ops[step.t].phase.ReadBack? then s.ops[step.t].phase.loaded
      else LastWritten(states, steps, n - 1)
  }

  lemma {:induction false} ColumnIsLastWritten(states: seq<State>, steps: seq<Step>, n: nat)
    requires IsBehavior(states, steps) && n < |states|
    ensures states[n].column == LastWritten(states, steps, n)
  {
    if n > 0 {
      ColumnIsLastWritten(states, steps, n - 1);
      ColumnBy(states[n - 1], steps[n - 1], states[n]);
    }
  }

  lemma ColumnBy(s: State, step: Step, next: State)
    requires Follows(s, step, next)
    ensures next.column == if step.Begin? then step.enable else if step.Settle? then s.ops[step.t].phase.loaded
                           else s.column
  {
  }

  /** What is loaded: what startup loaded, or what the last load or unload left. */
  function LastLoaded(states: seq<State>, steps: seq<Step>, n: nat): bool
    requires n < |states| == |steps| + 1
  {
    if n == 0 then states[0].loaded
    else if steps[n - 1].Publish? then true
    else if steps[n - 1].Unload? then false
    else LastLoaded(states, steps, n - 1)
  }

  lemma {:induction false} LoadedIsLastLoaded(states: seq<State>, steps: seq<Step>, n: nat)
    requires IsBehavior(states, steps) && n < |states|
    ensures states[n].loaded == LastLoaded(states, steps, n)
  {
    if n > 0 {
      LoadedIsLastLoaded(states, steps, n - 1);
      LoadedBy(states[n - 1], steps[n - 1], states[n]);
    }
  }

  lemma LoadedBy(s: State, step: Step, next: State)
    requires Follows(s, step, next)
    ensures next.loaded == if step.Publish? then true else if step.Unload? then false else s.loaded
  {
  }

  /** Something went wrong at the m-th state, startup or a settling that gave up just before
      it, and nothing has settled since. */
  ghost predicate FailedAndNotSettled(states: seq<State>, steps: seq<Step>, m: nat, n: nat)
    requires m <= n < |states| == |steps| + 1
  {
    && (if m == 0 then states[0].column != states[0].loaded else GivesUp(states[m - 1], steps[m - 1]))
    && forall i :: m <= i < n ==> !steps[i].Settle?
  }

  ghost predicate FailureStands(states: seq<State>, steps: seq<Step>, n: nat)
    requires n < |states| == |steps| + 1
  {
    exists m: nat :: m <= n && FailedAndNotSettled(states, steps, m, n)
  }

  lemma {:induction false} UnsettledIff(states: seq<State>, steps: seq<Step>, n: nat)
    requires IsBehavior(states, steps) && n < |states|
    ensures states[n].unsettled <==> FailureStands(states, steps, n)
  {
    if n == 0 {
      assert states[0].unsettled ==> FailedAndNotSettled(states, steps, 0, 0);
    } else {
      UnsettledIff(states, steps, n - 1);
      UnsettledOneMore(states, steps, n);
    }
  }

  lemma UnsettledOneMore(states: seq<State>, steps: seq<Step>, n: nat)
    requires IsBehavior(states, steps) && 0 < n < |states|
    requires states[n - 1].unsettled <==> FailureStands(states, steps, n - 1)
    ensures states[n].unsettled <==> FailureStands(states, steps, n)
  {
    var s, step := states[n - 1], steps[n - 1];
    UnsettledBy(s, step, states[n]);
    if GivesUp(s, step) {
      assert FailedAndNotSettled(states, steps, n, n);
    } else if s.unsettled && !step.Settle? {
      var m: nat :| m <= n - 1 && FailedAndNotSettled(states, steps, m, n - 1);
      assert FailedAndNotSettled(states, steps, m, n);
    }
    if m: nat :| m <= n && FailedAndNotSettled(states, steps, m, n) {
      if m < n {
        assert FailedAndNotSettled(states, steps, m, n - 1);
        assert !steps[n - 1].Settle?;
      }
    }
  }

  /** With nothing pending the flag is wrong exactly when, by the steps alone, startup or a
      settling failed and nothing has settled since, and the last write is not what the last
      load or unload left. */
  lemma FlagWrongIff(states: seq<State>, steps: seq<Step>, n: nat)
    requires IsBehavior(states, steps) && n < |states|
    requires forall t :: !Pending(states[n], t)
    ensures states[n].column != states[n].loaded <==>
      FailureStands(states, steps, n) && LastWritten(states, steps, n) != LastLoaded(states, steps, n)
  {
    AlwaysAgrees(states, steps, n);
    ColumnIsLastWritten(states, steps, n);
    LoadedIsLastLoaded(states, steps, n);
    UnsettledIff(states, steps, n);
  }

  lemma Extend(states: seq<State>, steps: seq<Step>, step: Step) returns (longer: seq<State>, more: seq<Step>)
    requires IsBehavior(states, steps) && Enabled(states[|states| - 1], step)
    ensures longer == states + [Apply(states[|states| - 1], step)] && more == steps + [step]
    ensures IsBehavior(longer, more)
  {
    longer, more := states + [Apply(states[|states| - 1], step)], steps + [step];
  }

  predicate RefusedAt(s: State, t: nat, phase: Phase) {
    s.inFlight.None? && s.loaded && !s.column && s.ops == map[t := Op(false, phase)]
  }

  lemma FailOnce(states: seq<State>, steps: seq<Step>, t: nat, attempt: nat)
    returns (longer: seq<State>, more: seq<Step>)
    requires IsBehavior(states, steps) && attempt < SETTLE_ATTEMPTS
    requires RefusedAt(states[|states| - 1], t, Locked(attempt))
    ensures IsBehavior(longer, more)
    ensures RefusedAt(longer[|longer| - 1], t, if attempt + 1 < SETTLE_ATTEMPTS then Locked(attempt + 1) else Done)
  {
    longer, more := Extend(states, steps, CheckFlight(t));
    assert RefusedAt(longer[|longer| - 1], t, Checked(attempt));
    longer, more := Extend(longer, more, ReadLoaded(t));
    assert RefusedAt(longer[|longer| - 1], t, ReadBack(true, attempt));
    longer, more := Extend(longer, more, SettleFails(t));
  }

  /** The failure the log line warns about: a disable of a loaded plugin that is refused,
      and whose settling write fails three times, leaves the row saying off. */
  lemma GivingUpDisagrees(t: nat) returns (states: seq<State>, steps: seq<Step>)
    ensures IsBehavior(states, steps)
    ensures RefusedAt(states[|states| - 1], t, Done)
    ensures states[|states| - 1].column != states[|states| - 1].loaded
  {
    states, steps := [State(true, true, None, None, map[], false)], [];
    states, steps := Extend(states, steps, Begin(t, false));
    assert RefusedAt(states[|states| - 1], t, Wrote);
    states, steps := Extend(states, steps, Refuse(t));
    assert RefusedAt(states[|states| - 1], t, Settling);
    states, steps := LockFirst(states, steps, t);
    var attempt := 0;
    while attempt + 1 < SETTLE_ATTEMPTS
      invariant attempt < SETTLE_ATTEMPTS && IsBehavior(states, steps)
      invariant RefusedAt(states[|states| - 1], t, Locked(attempt))
    {
      states, steps := FailOnce(states, steps, t, attempt);
      attempt := attempt + 1;
    }
    states, steps := FailOnce(states, steps, t, attempt);
  }

  lemma LockFirst(states: seq<State>, steps: seq<Step>, t: nat) returns (longer: seq<State>, more: seq<Step>)
    requires IsBehavior(states, steps)
    requires RefusedAt(states[|states| - 1], t, Settling)
    ensures IsBehavior(longer, more)
    ensures RefusedAt(longer[|longer| - 1], t, Locked(0))
  {
    AlwaysAgrees(states, steps, |steps|);
    longer, more := Extend(states, steps, Lock(t));
  }

  // ---- nobody gets stuck ----

  /** How many more steps an operation can take. */
  function Remaining(phase: Phase): nat {
    match phase
    case Wrote => 14
    case Claimed => 13
    case Loading => 12
    case LoadEnded => 11
    case Settling => 10
    case Locked(k) => if k < SETTLE_ATTEMPTS then 3 * (SETTLE_ATTEMPTS - k) else 0
    case Checked(k) => if k < SETTLE_ATTEMPTS then 3 * (SETTLE_ATTEMPTS - k) - 1 else 0
    case ReadBack(_, k) => if k < SETTLE_ATTEMPTS then 3 * (SETTLE_ATTEMPTS - k) - 2 else 0
    case Done => 0
  }

  /** Every operation ends: its own steps use up its budget and nobody else's restore it. */
  lemma StepsRunOut(s: State, step: Step, t: nat)
    requires Enabled(s, step) && Tracked(s) && t in s.ops
    ensures t in Apply(s, step).ops
    ensures step.t == t ==> Remaining(Apply(s, step).ops[t].phase) < Remaining(s.ops[t].phase)
    ensures step.t != t ==> Apply(s, step).ops[t] == s.ops[t]
  {
    OnlyActorMoves(s, step);
    if step.t == t {
      OwnStepCosts(s, step);
    }
  }

  lemma OwnStepCosts(s: State, step: Step)
    requires Enabled(s, step) && Tracked(s) && step.t in s.ops
    ensures step.t in Apply(s, step).ops
    ensures Remaining(Apply(s, step).ops[step.t].phase) < Remaining(s.ops[step.t].phase)
  {
    if InMutex(s.ops[step.t].phase) {
      SettlingStepCosts(s, step);
    }
  }

  lemma SettlingStepCosts(s: State, step: Step)
    requires Enabled(s, step) && step.t in s.ops
    requires InMutex(s.ops[step.t].phase) && TriesLeft(s.ops[step.t].phase)
    ensures step.t in Apply(s, step).ops
    ensures Remaining(Apply(s, step).ops[step.t].phase) < Remaining(s.ops[step.t].phase)
  {
  }

  /** While anything is pending, some operation already begun can take a step. */
  lemma SomebodyCanMove(s: State, t: nat) returns (step: Step)
    requires Tracked(s) && Pending(s, t)
    ensures Enabled(s, step) && !step.Begin?
  {
    var u := if s.ops[t].phase.Settling? && s.mutex.Some? then s.mutex.value else t;
    match s.ops[u].phase
    case Wrote => step := if s.ops[u].enable then ClaimLoad(u) else Refuse(u);
    case Claimed => step := CheckLoaded(u);
    case Loading => step := FailLoad(u);
    case LoadEnded => step := EndLoad(u);
    case Settling => step := Lock(u);
    case Locked(_) => step := CheckFlight(u);
    case Checked(_) => step := ReadLoaded(u);
    case ReadBack(_, _) => step := Settle(u);
  }

  // ---- requests take effect ----

  /** Only this operation has moved since s, to this phase, and this is now loaded. */
  predicate OpAt(s: State, now: State, t: nat, enable: bool, phase: Phase, loaded: bool) {
    now == State(enable, loaded, if InLoad(phase) then Some(t) else None, if InMutex(phase) then Some(t) else None,
                 s.ops[t := Op(enable, phase)], now.unsettled)
  }

  /** In any reachable state with nothing pending, an enable or disable that is left alone,
      and of which no step fails, loads or unloads the plugin and leaves the column saying
      so. */
  lemma RequestsTakeEffect(states: seq<State>, steps: seq<Step>, t: nat, enable: bool)
    returns (longer: seq<State>, more: seq<Step>)
    requires IsBehavior(states, steps) && t !in states[|states| - 1].ops
    requires Quiet(states[|states| - 1])
    ensures IsBehavior(longer, more) && states <= longer && steps <= more
    ensures var end := longer[|longer| - 1];
      && end.loaded == enable && end.column == enable && !end.unsettled
      && t in end.ops && end.ops[t] == Op(enable, Done) && Quiet(end)
  {
    var s := states[|states| - 1];
    AlwaysAgrees(states, steps, |steps|);
    QuietIsFree(s);
    longer, more := Extend(states, steps, Begin(t, enable));
    assert OpAt(s, longer[|longer| - 1], t, enable, Wrote, s.loaded);
    if enable {
      longer, more := LoadAlone(longer, more, s, t);
    } else {
      longer, more := Extend(longer, more, if s.loaded then Unload(t) else Refuse(t));
      assert OpAt(s, longer[|longer| - 1], t, false, Settling, false);
    }
    longer, more := CheckAlone(longer, more, s, t, enable);
    longer, more := SettleAlone(longer, more, s, t, enable);
    QuietAgain(s, longer[|longer| - 1], t, enable);
  }

  lemma QuietAgain(s: State, end: State, t: nat, enable: bool)
    requires Quiet(s) && end.ops == s.ops[t := Op(enable, Done)]
    ensures Quiet(end)
  {
    forall u ensures !Pending(end, u) {
      assert !Pending(s, u);
    }
  }

  ghost predicate Quiet(s: State) {
    forall t :: !Pending(s, t)
  }

  lemma QuietIsFree(s: State)
    requires Tracked(s) && Quiet(s)
    ensures s.inFlight.None? && s.mutex.None?
  {
    assert s.inFlight.Some? ==> Pending(s, s.inFlight.value);
    assert s.mutex.Some? ==> Pending(s, s.mutex.value);
  }

  lemma LoadAlone(states: seq<State>, steps: seq<Step>, s: State, t: nat)
    returns (longer: seq<State>, more: seq<Step>)
    requires IsBehavior(states, steps) && OpAt(s, states[|states| - 1], t, true, Wrote, s.loaded)
    ensures IsBehavior(longer, more) && states <= longer && steps <= more
    ensures OpAt(s, longer[|longer| - 1], t, true, Settling, true)
  {
    longer, more := ClaimAlone(states, steps, s, t);
    if !s.loaded {
      longer, more := PublishAlone(longer, more, s, t);
    }
    longer, more := Extend(longer, more, EndLoad(t));
  }

  lemma ClaimAlone(states: seq<State>, steps: seq<Step>, s: State, t: nat)
    returns (longer: seq<State>, more: seq<Step>)
    requires IsBehavior(states, steps) && OpAt(s, states[|states| - 1], t, true, Wrote, s.loaded)
    ensures IsBehavior(longer, more) && states <= longer && steps <= more
    ensures OpAt(s, longer[|longer| - 1], t, true, if s.loaded then LoadEnded else Loading, s.loaded)
  {
    longer, more := Extend(states, steps, ClaimLoad(t));
    assert OpAt(s, longer[|longer| - 1], t, true, Claimed, s.loaded);
    longer, more := Extend(longer, more, CheckLoaded(t));
  }

  lemma PublishAlone(states: seq<State>, steps: seq<Step>, s: State, t: nat)
    returns (longer: seq<State>, more: seq<Step>)
    requires IsBehavior(states, steps) && OpAt(s, states[|states| - 1], t, true, Loading, false)
    ensures IsBehavior(longer, more) && states <= longer && steps <= more
    ensures OpAt(s, longer[|longer| - 1], t, true, LoadEnded, true)
  {
    longer, more := Extend(states, steps, Publish(t));
  }

  lemma CheckAlone(states: seq<State>, steps: seq<Step>, s: State, t: nat, enable: bool)
    returns (longer: seq<State>, more: seq<Step>)
    requires IsBehavior(states, steps) && OpAt(s, states[|states| - 1], t, enable, Settling, enable)
    ensures IsBehavior(longer, more) && states <= longer && steps <= more
    ensures OpAt(s, longer[|longer| - 1], t, enable, Checked(0), enable)
  {
    longer, more := Extend(states, steps, Lock(t));
    assert OpAt(s, longer[|longer| - 1], t, enable, Locked(0), enable);
    longer, more := Extend(longer, more, CheckFlight(t));
  }

  lemma SettleAlone(states: seq<State>, steps: seq<Step>, s: State, t: nat, enable: bool)
    returns (longer: seq<State>, more: seq<Step>)
    requires IsBehavior(states, steps) && OpAt(s, states[|states| - 1], t, enable, Checked(0), enable)
    ensures IsBehavior(longer, more) && states <= longer && steps <= more
    ensures OpAt(s, longer[|longer| - 1], t, enable, Done, enable) && !longer[|longer| - 1].unsettled
  {
    longer, more := Extend(states, steps, ReadLoaded(t));
    assert OpAt(s, longer[|longer| - 1], t, enable, ReadBack(enable, 0), enable);
    longer, more := Extend(longer, more, Settle(t));
  }
}
