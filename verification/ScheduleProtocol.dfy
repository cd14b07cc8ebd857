/** Any number of processes ticking and manually running one schedule row
    (application_context/plugin_scheduler.go over plugin_schedule_context.go).

    Statements of other rows never match this one's id, so one row is enough. A step is one
    statement, one reading of the clock, or one event outside the scheduler. Tokens are
    random in the original; here they are never repeated. */
module ScheduleProtocol {
  import opened Outcomes
  import opened PluginSchedules

  /** A ticked run carries the overlap policy of the row as its tick listed it. */
  datatype Kind = Ticked(policy: Overlap) | Manual

  /** Where a run stands between minting its token and its last statement. */
  datatype Phase =
    | Minted
    | Won
    | Advancing(at: int)
    | AdvanceRead(at: int, every: int)
    | Executing
    | Completing(at: int, failed: bool)
    | CompleteRead(at: int, failed: bool, every: int)
    | Recording(at: int, failed: bool)
    | Releasing(ran: bool)
    | Over(ran: bool)

  /** `now` is the instant the run claims with: the start of its tick, or of the request. */
  datatype Run = Run(kind: Kind, now: int, phase: Phase)

  /** `rebased` is the history of due-time changes: which run moved it, counted from when. */
  datatype State = State(clock: int, row: Option<Row>, runs: map<nat, Run>, rebased: seq<(nat, int)>)

  datatype Step =
    | Wait(delta: nat)
    | Mint(t: nat, kind: Kind, now: int)
    | Claim(t: nat)
    | GiveUp(t: nat)
    | Start(t: nat)
    | ReadForAdvance(t: nat)
    | WriteAdvance(t: nat)
    | NeverRan(t: nat)
    | Ran(t: nat, failed: bool)
    | ReadForComplete(t: nat)
    | WriteComplete(t: nat)
    | WriteRecord(t: nat)
    | WriteRelease(t: nat)
    | StatementFails(t: nat)
    | Crash(t: nat)
    | Sync(reg: Registration, owner: Option<nat>)
    | OwnerDeleted
    | RowDeleted

  predicate IsAllow(run: Run) {
    run.kind == Ticked(Allow)
  }

  /** The run believes it holds the row: from winning the claim to letting go of it. */
  predicate HoldsClaim(run: Run) {
    match run.phase
    case Minted => false
    case Over(_) => false
    case Executing => !IsAllow(run)
    case Recording(_, _) => !IsAllow(run)
    case _ => true
  }

  predicate Enabled(s: State, step: Step) {
    match step
    case Wait(_) => true
    case Mint(t, _, now) => t > 0 && t !in s.runs && now <= s.clock
    case Claim(t) => t in s.runs && s.runs[t].phase.Minted?
    case GiveUp(t) => t in s.runs && s.runs[t].phase.Won?
    case Start(t) => t in s.runs && s.runs[t].phase.Won?
    case ReadForAdvance(t) => t in s.runs && s.runs[t].phase.Advancing?
    case WriteAdvance(t) => t in s.runs && s.runs[t].phase.AdvanceRead?
    case NeverRan(t) => t in s.runs && s.runs[t].phase.Executing?
    case Ran(t, _) => t in s.runs && s.runs[t].phase.Executing?
    case ReadForComplete(t) => t in s.runs && s.runs[t].phase.Completing?
    case WriteComplete(t) => t in s.runs && s.runs[t].phase.CompleteRead?
    case WriteRecord(t) => t in s.runs && s.runs[t].phase.Recording?
    case WriteRelease(t) => t in s.runs && s.runs[t].phase.Releasing?
    case StatementFails(t) => t in s.runs && AtStatement(s.runs[t].phase)
    case Crash(t) => t in s.runs
    case Sync(_, _) => true
    case OwnerDeleted => true
    case RowDeleted => true
  }

  predicate AtStatement(phase: Phase) {
    phase.Advancing? || phase.AdvanceRead? || phase.Completing? || phase.CompleteRead?
      || phase.Recording? || phase.Releasing?
  }

  /** The run's outcome has reached its last bookkeeping statement. */
  predicate Counted(phase: Phase) {
    (phase.Releasing? || phase.Over?) && phase.ran
  }

  function To(s: State, t: nat, phase: Phase): State
    requires t in s.runs
  {
    s.(runs := s.runs[t := s.runs[t].(phase := phase)])
  }

  function Apply(s: State, step: Step): State
    requires Enabled(s, step)
  {
    match step
    case Wait(delta) => s.(clock := s.clock + delta)
    case Mint(t, kind, now) => s.(runs := s.runs[t := Run(kind, now, Minted)])
    case Claim(t) =>
      if s.row.Some? && Claimable(s.row.value, s.runs[t].now, s.runs[t].kind.Ticked?) then
        To(s, t, Won).(row := Some(Claimed(s.row.value, t, s.runs[t].now)))
      else
        To(s, t, Over(false))
    case GiveUp(t) => To(s, t, Releasing(false))
    case Start(t) => To(s, t, if IsAllow(s.runs[t]) then Advancing(s.clock) else Executing)
    case ReadForAdvance(t) =>
      if s.row.Some? && s.row.value.token == t then
        To(s, t, AdvanceRead(s.runs[t].phase.at, Interval(s.row.value)))
      else
        To(s, t, Executing)
    case WriteAdvance(t) =>
      var phase := s.runs[t].phase;
      if s.row.Some? && s.row.value.token == t then
        To(s, t, Executing).(row := Some(Advanced(s.row.value, t, phase.at, phase.every)),
                             rebased := s.rebased + [(t, phase.at)])
      else
        To(s, t, Executing)
    case NeverRan(t) => To(s, t, if IsAllow(s.runs[t]) then Over(false) else Releasing(false))
    case Ran(t, failed) =>
      To(s, t, if s.runs[t].kind == Ticked(Skip) then Completing(s.clock, failed) else Recording(s.clock, failed))
    case ReadForComplete(t) =>
      var phase := s.runs[t].phase;
      if s.row.Some? && s.row.value.token == t then
        To(s, t, CompleteRead(phase.at, phase.failed, Interval(s.row.value)))
      else
        To(s, t, Over(true))
    case WriteComplete(t) =>
      var phase := s.runs[t].phase;
      if s.row.Some? && s.row.value.token == t then
        To(s, t, Over(true)).(row := Some(Completed(s.row.value, t, phase.at, phase.every, phase.failed)),
                              rebased := s.rebased + [(t, phase.at)])
      else
        To(s, t, Over(true))
    case WriteRecord(t) =>
      var phase := s.runs[t].phase;
      var row := if s.row.Some? then Some(Recorded(s.row.value, phase.at, phase.failed)) else None;
      To(s, t, if IsAllow(s.runs[t]) then Over(true) else Releasing(true)).(row := row)
    case WriteRelease(t) =>
      var row := if s.row.Some? then Some(Released(s.row.value, t)) else None;
      To(s, t, Over(s.runs[t].phase.ran)).(row := row)
    case StatementFails(t) =>
      To(s, t, match s.runs[t].phase
        case Advancing(_) => Executing
        case AdvanceRead(_, _) => Executing
        case Recording(_, _) => if IsAllow(s.runs[t]) then Over(true) else Releasing(true)
        case Releasing(ran) => Over(ran)
        case _ => Over(true))
    case Crash(t) => To(s, t, Over(Counted(s.runs[t].phase)))
    case Sync(reg, owner) =>
      s.(row := if s.row.Some? then Some(Synced(s.row.value, reg, owner)) else None)
    case OwnerDeleted => s.(row := if s.row.Some? then Some(s.row.value.(owner := None)) else None)
    case RowDeleted => s.(row := None)
  }

  predicate Init(s: State) {
    s.runs == map[] && s.rebased == [] && (s.row.Some? ==> s.row.value.token == 0)
  }

  ghost predicate IsBehavior(states: seq<State>, steps: seq<Step>) {
    && |states| == |steps| + 1 && Init(states[0])
    && forall i :: 0 <= i < |steps| ==> Enabled(states[i], steps[i]) && states[i + 1] == Apply(states[i], steps[i])
  }

  predicate Follows(s: State, step: Step, next: State) {
    Enabled(s, step) && next == Apply(s, step)
  }

  // ---- lease safety ----

  /** No claim-holding run has outlived its claim's TTL. */
  ghost predicate LeasesKept(s: State) {
    forall t :: t in s.runs && HoldsClaim(s.runs[t]) ==> s.clock <= s.runs[t].now + CLAIM_TTL
  }

  ghost predicate AtMostOneHolder(s: State) {
    forall t, u :: t in s.runs && u in s.runs && HoldsClaim(s.runs[t]) && HoldsClaim(s.runs[u]) ==> t == u
  }

  /** Which bookkeeping a run does follows from its kind. */
  predicate PhaseFits(run: Run) {
    && (run.phase.Advancing? || run.phase.AdvanceRead? ==> IsAllow(run))
    && (run.phase.Completing? || run.phase.CompleteRead? ==> run.kind == Ticked(Skip))
    && (run.phase.Recording? ==> run.kind != Ticked(Skip))
  }

  /** Tokens are positive and claims are not from the future. */
  ghost predicate SaneRuns(s: State) {
    forall t :: t in s.runs ==> t > 0 && s.runs[t].now <= s.clock && PhaseFits(s.runs[t])
  }

  /** Facts that need no lease; among them that the row carries only tokens of runs that
      won it. */
  ghost predicate Sane(s: State) {
    && SaneRuns(s)
    && (s.row.Some? && s.row.value.token != 0 ==>
          s.row.value.token in s.runs && !s.runs[s.row.value.token].phase.Minted?)
  }

  /** With leases kept, whoever holds a claim has its own token and instant on the row. */
  ghost predicate HolderOnRow(s: State) {
    forall t :: t in s.runs && HoldsClaim(s.runs[t]) && s.row.Some? ==>
      s.row.value.token == t && s.row.value.claimedAt == Some(s.runs[t].now)
  }

  lemma SaneStep(s: State, step: Step)
    requires Enabled(s, step) && Sane(s)
    ensures Sane(Apply(s, step))
  {
    SaneRunsStep(s, step);
    TokensOnRow(s, step);
  }

  lemma SaneRunsStep(s: State, step: Step)
    requires Enabled(s, step) && SaneRuns(s)
    ensures SaneRuns(Apply(s, step))
  {
    var next := Apply(s, step);
    assert s.clock <= next.clock;
    forall t | t in next.runs ensures t > 0 && next.runs[t].now <= next.clock && PhaseFits(next.runs[t]) {
      if !(t in s.runs && next.runs[t] == s.runs[t]) {
        ActorSane(s, step, t);
      }
    }
  }

  lemma ActorSane(s: State, step: Step, t: nat)
    requires Enabled(s, step) && SaneRuns(s) && t in Apply(s, step).runs
    requires !(t in s.runs && Apply(s, step).runs[t] == s.runs[t])
    ensures t > 0 && Apply(s, step).runs[t].now <= s.clock && PhaseFits(Apply(s, step).runs[t])
  {
    assert t in s.runs ==> PhaseFits(s.runs[t]);
  }

  /** Only a claim puts a token on the row, and a run never returns to Minted. */
  lemma TokensOnRow(s: State, step: Step)
    requires Enabled(s, step)
    ensures forall t :: t in s.runs ==> t in Apply(s, step).runs
    ensures forall t :: t in s.runs && !s.runs[t].phase.Minted? ==> !Apply(s, step).runs[t].phase.Minted?
    ensures Apply(s, step).row.Some? ==>
      || (s.row.Some? && Apply(s, step).row.value.token in {0, s.row.value.token})
      || (step.Claim? && Apply(s, step).row.value.token == step.t && !Apply(s, step).runs[step.t].phase.Minted?)
  {
  }

  predicate WinsClaim(s: State, step: Step)
    requires Enabled(s, step)
  {
    step.Claim? && s.row.Some? && Claimable(s.row.value, s.runs[step.t].now, s.runs[step.t].kind.Ticked?)
  }

  /** Only a won claim makes a holder. */
  lemma HoldersComeFromClaims(s: State, step: Step, u: nat)
    requires Enabled(s, step) && !WinsClaim(s, step)
    requires u in Apply(s, step).runs && HoldsClaim(Apply(s, step).runs[u])
    ensures u in s.runs && HoldsClaim(s.runs[u]) && Apply(s, step).runs[u].now == s.runs[u].now
  {
  }

  /** No other step takes the claim from a run that still holds it after the step. */
  lemma ClaimOutlastsStep(s: State, step: Step, u: nat)
    requires Enabled(s, step) && !WinsClaim(s, step) && s.row.Some? && s.row.value.token == u
    requires u in s.runs && u != 0 && PhaseFits(s.runs[u]) && Apply(s, step).row.Some?
    requires u in Apply(s, step).runs && HoldsClaim(Apply(s, step).runs[u])
    ensures Apply(s, step).row.value.token == u
    ensures Apply(s, step).row.value.claimedAt == s.row.value.claimedAt
  {
  }

  lemma HolderStep(s: State, step: Step)
    requires Enabled(s, step) && Sane(s) && LeasesKept(s) && AtMostOneHolder(s) && HolderOnRow(s)
    ensures AtMostOneHolder(Apply(s, step)) && HolderOnRow(Apply(s, step))
  {
    if WinsClaim(s, step) {
      NobodyElseHolds(s, step.t);
    } else {
      QuietStep(s, step);
    }
  }

  lemma QuietStep(s: State, step: Step)
    requires Enabled(s, step) && !WinsClaim(s, step) && Sane(s) && AtMostOneHolder(s) && HolderOnRow(s)
    ensures AtMostOneHolder(Apply(s, step)) && HolderOnRow(Apply(s, step))
  {
    var next := Apply(s, step);
    forall u | u in next.runs && HoldsClaim(next.runs[u])
      ensures u in s.runs && HoldsClaim(s.runs[u])
      ensures next.row.Some? ==> next.row.value.token == u && next.row.value.claimedAt == Some(next.runs[u].now)
    {
      HoldersComeFromClaims(s, step, u);
      if next.row.Some? {
        RowIsNotCreated(s, step);
        ClaimOutlastsStep(s, step, u);
      }
    }
  }

  lemma RowIsNotCreated(s: State, step: Step)
    requires Enabled(s, step) && Apply(s, step).row.Some?
    ensures s.row.Some?
  {
  }

  /** No token, no instant to go by, or one more than a TTL ago: the dispatch wait, the
      longest job and two minutes, 430 seconds in all. */
  predicate FreeAt(row: Row, now: int) {
    row.token == 0 || row.claimedAt.None? || row.claimedAt.value + 430_000_000_000 < now
  }

  /** A claim on a row wins exactly when the row is owned, free, and, for a tick, due; and
      then the run's token and instant are on it. */
  lemma ClaimWinsIff(s: State, t: nat)
    requires t in s.runs && s.runs[t].phase.Minted?
    ensures var next := Apply(s, Claim(t));
      && t in next.runs
      && (next.runs[t].phase.Won? <==>
            && s.row.Some? && s.row.value.owner.Some? && FreeAt(s.row.value, s.runs[t].now)
            && (s.runs[t].kind.Ticked? ==> s.row.value.nextDue <= s.runs[t].now))
      && (next.runs[t].phase.Won? ==>
            next.row == Some(s.row.value.(token := t, claimedAt := Some(s.runs[t].now))))
      && (!next.runs[t].phase.Won? ==> next.runs[t].phase == Over(false) && next.row == s.row)
  {
  }

  /** The heart of the lease: a claim that succeeds proves that nobody holds the row. */
  lemma NobodyElseHolds(s: State, t: nat)
    requires t in s.runs && Sane(s) && LeasesKept(s) && HolderOnRow(s)
    requires s.row.Some? && FreeAt(s.row.value, s.runs[t].now)
    ensures forall u :: u in s.runs ==> !HoldsClaim(s.runs[u])
  {
    forall u | u in s.runs ensures !HoldsClaim(s.runs[u]) {
      if HoldsClaim(s.runs[u]) {
        assert false;
      }
    }
  }

  /** Lease safety: in every interleaving in which each claim-holding run ends within the
      TTL of the instant it wrote, the row never has two claim-holding runs. */
  lemma {:induction false} LeaseSafety(states: seq<State>, steps: seq<Step>, n: nat)
    requires IsBehavior(states, steps) && n < |states|
    requires forall i :: 0 <= i < n ==> LeasesKept(states[i])
    ensures Sane(states[n]) && AtMostOneHolder(states[n]) && HolderOnRow(states[n])
  {
    if n > 0 {
      LeaseSafety(states, steps, n - 1);
      SaneStep(states[n - 1], steps[n - 1]);
      HolderStep(states[n - 1], steps[n - 1]);
    }
  }

  /** Executing under "skip", or for an operator, is holding: so no two such runs ever
      execute at once. */
  lemma SkipRunsNeverOverlap(states: seq<State>, steps: seq<Step>, n: nat, t: nat, u: nat)
    requires IsBehavior(states, steps) && n < |states|
    requires forall i :: 0 <= i < n ==> LeasesKept(states[i])
    requires t in states[n].runs && u in states[n].runs
    requires states[n].runs[t].phase.Executing? && states[n].runs[u].phase.Executing?
    requires !IsAllow(states[n].runs[t]) && !IsAllow(states[n].runs[u])
    ensures t == u
  {
    LeaseSafety(states, steps, n);
  }

  // ---- without the lease ----

  function Actor(step: Step): nat {
    match step
    case Wait(_) => 0
    case Sync(_, _) => 0
    case OwnerDeleted => 0
    case RowDeleted => 0
    case _ => step.t
  }

  predicate SameClaimAndDue(a: Row, b: Row) {
    a.token == b.token && a.claimedAt == b.claimedAt && a.nextDue == b.nextDue
  }

  /** Run t has claimed, and the row is not t's. */
  ghost predicate Lost(s: State, t: nat) {
    && t in s.runs && !s.runs[t].phase.Minted?
    && (s.row.Some? ==> s.row.value.token != t)
  }

  lemma LostStep(s: State, step: Step, t: nat)
    requires Enabled(s, step) && Sane(s) && Lost(s, t)
    ensures Lost(Apply(s, step), t)
  {
  }

  lemma {:induction false} AlwaysSane(states: seq<State>, steps: seq<Step>, n: nat)
    requires IsBehavior(states, steps) && n < |states|
    ensures Sane(states[n])
  {
    if n > 0 {
      AlwaysSane(states, steps, n - 1);
      SaneStep(states[n - 1], steps[n - 1]);
    }
  }

  /** Once a run has claimed and the row no longer carries its token, it never does again,
      whether or not anybody keeps the lease. */
  lemma {:induction false} LostClaimStaysLost(states: seq<State>, steps: seq<Step>, m: nat, n: nat, t: nat)
    requires IsBehavior(states, steps) && m <= n < |states| && Lost(states[m], t)
    ensures Lost(states[n], t)
    decreases n - m
  {
    if m < n {
      LostClaimStaysLost(states, steps, m, n - 1, t);
      AlwaysSane(states, steps, n - 1);
      LostStep(states[n - 1], steps[n - 1], t);
    }
  }

  /** And from then on nothing it does moves the claim or the due time that another run,
      or nobody, has on the row. */
  lemma LostRunTouchesNothing(states: seq<State>, steps: seq<Step>, m: nat, n: nat, t: nat)
    requires IsBehavior(states, steps) && m <= n < |steps| && Lost(states[m], t)
    requires Actor(steps[n]) == t && states[n].row.Some?
    ensures states[n + 1].row.Some? && SameClaimAndDue(states[n].row.value, states[n + 1].row.value)
    ensures steps[n].WriteRecord? || states[n + 1].row == states[n].row
  {
    LostClaimStaysLost(states, steps, m, n, t);
    AlwaysSane(states, steps, n);
    LostRunStep(states[n], steps[n], t);
  }

  lemma LostRunStep(s: State, step: Step, t: nat)
    requires Enabled(s, step) && Sane(s) && Lost(s, t) && Actor(step) == t && s.row.Some?
    ensures Apply(s, step).row.Some? && SameClaimAndDue(s.row.value, Apply(s, step).row.value)
    ensures step.WriteRecord? || Apply(s, step).row == s.row
  {
  }

  /** A manual run never moves the due time, in any behavior. */
  lemma ManualRunKeepsDueTime(states: seq<State>, steps: seq<Step>, n: nat)
    requires IsBehavior(states, steps) && n < |steps| && states[n].row.Some?
    requires Actor(steps[n]) in states[n].runs && states[n].runs[Actor(steps[n])].kind.Manual?
    ensures states[n + 1].row.Some? && states[n + 1].row.value.nextDue == states[n].row.value.nextDue
    ensures states[n + 1].rebased == states[n].rebased
  {
    AlwaysSane(states, steps, n);
  }

  // ---- runs get done ----

  lemma Extend(states: seq<State>, steps: seq<Step>, step: Step) returns (longer: seq<State>, more: seq<Step>)
    requires IsBehavior(states, steps) && Enabled(states[|states| - 1], step)
    ensures longer == states + [Apply(states[|states| - 1], step)] && more == steps + [step]
    ensures IsBehavior(longer, more)
  {
    longer, more := states + [Apply(states[|states| - 1], step)], steps + [step];
  }

  /** Recovery: whatever run left its token on an owned row, dead or alive, once the row is
      due and the claim older than the TTL the next tick takes it over. */
  lemma ExpiredClaimIsTakenOver(states: seq<State>, steps: seq<Step>, t: nat, policy: Overlap, wait: nat)
    returns (longer: seq<State>, more: seq<Step>)
    requires IsBehavior(states, steps) && t > 0 && t !in states[|states| - 1].runs
    requires var s := states[|states| - 1];
      && s.row.Some? && s.row.value.owner.Some? && s.row.value.nextDue <= s.clock + wait
      && (s.row.value.claimedAt.Some? ==> s.row.value.claimedAt.value + CLAIM_TTL < s.clock + wait)
    ensures IsBehavior(longer, more)
    ensures var now := states[|states| - 1].clock + wait;
      && more == steps + [Wait(wait), Mint(t, Ticked(policy), now), Claim(t)]
      && t in longer[|longer| - 1].runs && longer[|longer| - 1].runs[t].phase.Won?
      && longer[|longer| - 1].row == Some(states[|states| - 1].row.value.(token := t, claimedAt := Some(now)))
  {
    var now := states[|states| - 1].clock + wait;
    longer, more := Extend(states, steps, Wait(wait));
    longer, more := Extend(longer, more, Mint(t, Ticked(policy), now));
    ClaimWinsIff(longer[|longer| - 1], t);
    longer, more := Extend(longer, more, Claim(t));
  }

  /** Only this run has moved since s, to this phase, and this is now the row. */
  predicate RunAt(s: State, now: State, t: nat, kind: Kind, phase: Phase, row: Row) {
    now == s.(runs := s.runs[t := Run(kind, s.clock, phase)], row := Some(row), rebased := now.rebased)
  }

  /** A free, owned row, due if a tick is to run it. */
  predicate Available(s: State, kind: Kind) {
    && s.row.Some? && s.row.value.owner.Some? && FreeAt(s.row.value, s.clock)
    && (kind.Ticked? ==> s.row.value.nextDue <= s.clock)
  }

  /** The row after a complete run of this kind: recorded, released, and re-based by a tick. */
  function RowAfterRun(row: Row, kind: Kind, at: int, failed: bool): Row {
    row.(token := 0, claimedAt := None, last := Some(RunOutcome(at, failed)), runs := row.runs + 1,
         nextDue := if kind.Ticked? then at + EveryOrMinute(row.everySeconds) else row.nextDue)
  }

  /** In any reachable state with an available row, a run left alone executes, and leaves
      the row recorded once, released and, if ticked, due an interval later. */
  lemma RunsGetDone(states: seq<State>, steps: seq<Step>, t: nat, kind: Kind, failed: bool)
    returns (longer: seq<State>, more: seq<Step>, at: nat)
    requires IsBehavior(states, steps) && t > 0
    requires t !in states[|states| - 1].runs && Available(states[|states| - 1], kind)
    ensures IsBehavior(longer, more) && states <= longer && steps <= more
    ensures |states| <= at < |longer| && t in longer[at].runs && longer[at].runs[t].phase.Executing?
    ensures var s := states[|states| - 1];
      RunAt(s, longer[|longer| - 1], t, kind, Over(true), RowAfterRun(s.row.value, kind, s.clock, failed))
  {
    var s := states[|states| - 1];
    longer, more := ClaimFree(states, steps, t, kind);
    longer, more := Dispatch(longer, more, s, t, kind);
    at := |longer| - 1;
    longer, more := Finish(longer, more, s, t, kind, failed);
  }

  lemma ClaimFree(states: seq<State>, steps: seq<Step>, t: nat, kind: Kind)
    returns (longer: seq<State>, more: seq<Step>)
    requires IsBehavior(states, steps) && t > 0
    requires t !in states[|states| - 1].runs && Available(states[|states| - 1], kind)
    ensures IsBehavior(longer, more) && states <= longer && steps <= more && |states| < |longer|
    ensures var s := states[|states| - 1];
      RunAt(s, longer[|longer| - 1], t, kind, Won, s.row.value.(token := t, claimedAt := Some(s.clock)))
  {
    var s := states[|states| - 1];
    longer, more := Extend(states, steps, Mint(t, kind, s.clock));
    ClaimWinsIff(longer[|longer| - 1], t);
    longer, more := Extend(longer, more, Claim(t));
  }

  /** The row while the run executes: under allow it has let go already. */
  function RowWhileExecuting(row: Row, t: nat, kind: Kind, at: int): Row {
    if kind == Ticked(Allow) then
      row.(token := 0, claimedAt := None, nextDue := at + EveryOrMinute(row.everySeconds))
    else row.(token := t, claimedAt := Some(at))
  }

  lemma Dispatch(states: seq<State>, steps: seq<Step>, s: State, t: nat, kind: Kind)
    returns (longer: seq<State>, more: seq<Step>)
    requires IsBehavior(states, steps) && s.row.Some? && t > 0
    requires RunAt(s, states[|states| - 1], t, kind, Won, s.row.value.(token := t, claimedAt := Some(s.clock)))
    ensures IsBehavior(longer, more) && states <= longer && steps <= more
    ensures RunAt(s, longer[|longer| - 1], t, kind, Executing, RowWhileExecuting(s.row.value, t, kind, s.clock))
  {
    var mine := s.row.value.(token := t, claimedAt := Some(s.clock));
    longer, more := Extend(states, steps, Start(t));
    if kind == Ticked(Allow) {
      assert RunAt(s, longer[|longer| - 1], t, kind, Advancing(s.clock), mine);
      longer, more := Extend(longer, more, ReadForAdvance(t));
      assert RunAt(s, longer[|longer| - 1], t, kind, AdvanceRead(s.clock, EveryOrMinute(mine.everySeconds)), mine);
      longer, more := Extend(longer, more, WriteAdvance(t));
    }
  }

  lemma Finish(states: seq<State>, steps: seq<Step>, s: State, t: nat, kind: Kind, failed: bool)
    returns (longer: seq<State>, more: seq<Step>)
    requires IsBehavior(states, steps) && s.row.Some? && t > 0
    requires RunAt(s, states[|states| - 1], t, kind, Executing, RowWhileExecuting(s.row.value, t, kind, s.clock))
    ensures IsBehavior(longer, more) && states <= longer && steps <= more
    ensures RunAt(s, longer[|longer| - 1], t, kind, Over(true), RowAfterRun(s.row.value, kind, s.clock, failed))
  {
    var row := RowWhileExecuting(s.row.value, t, kind, s.clock);
    longer, more := Extend(states, steps, Ran(t, failed));
    match kind {
      case Ticked(Skip) => longer, more := Complete(longer, more, s, t, row, failed);
      case Ticked(Allow) => longer, more := Record(longer, more, s, t, kind, row, failed);
      case Manual => longer, more := Record(longer, more, s, t, kind, row, failed);
    }
  }

  lemma Complete(states: seq<State>, steps: seq<Step>, s: State, t: nat, row: Row, failed: bool)
    returns (longer: seq<State>, more: seq<Step>)
    requires IsBehavior(states, steps) && t > 0 && row.token == t
    requires RunAt(s, states[|states| - 1], t, Ticked(Skip), Completing(s.clock, failed), row)
    ensures IsBehavior(longer, more) && states <= longer && steps <= more
    ensures RunAt(s, longer[|longer| - 1], t, Ticked(Skip), Over(true),
              row.(token := 0, claimedAt := None, last := Some(RunOutcome(s.clock, failed)), runs := row.runs + 1,
                   nextDue := s.clock + EveryOrMinute(row.everySeconds)))
  {
    var every := EveryOrMinute(row.everySeconds);
    longer, more := Extend(states, steps, ReadForComplete(t));
    assert RunAt(s, longer[|longer| - 1], t, Ticked(Skip), CompleteRead(s.clock, failed, every), row);
    longer, more := Extend(longer, more, WriteComplete(t));
  }

  lemma Record(states: seq<State>, steps: seq<Step>, s: State, t: nat, kind: Kind, row: Row, failed: bool)
    returns (longer: seq<State>, more: seq<Step>)
    requires IsBehavior(states, steps) && (kind == Ticked(Allow) || (kind.Manual? && row.token == t))
    requires RunAt(s, states[|states| - 1], t, kind, Recording(s.clock, failed), row)
    ensures IsBehavior(longer, more) && states <= longer && steps <= more
    ensures var recorded := row.(last := Some(RunOutcome(s.clock, failed)), runs := row.runs + 1);
      RunAt(s, longer[|longer| - 1], t, kind, Over(true),
            if kind.Manual? then recorded.(token := 0, claimedAt := None) else recorded)
  {
    var recorded := row.(last := Some(RunOutcome(s.clock, failed)), runs := row.runs + 1);
    longer, more := Extend(states, steps, WriteRecord(t));
    if kind.Manual? {
      assert RunAt(s, longer[|longer| - 1], t, kind, Releasing(true), recorded);
      longer, more := Extend(longer, more, WriteRelease(t));
      assert RunAt(s, longer[|longer| - 1], t, kind, Over(true), recorded.(token := 0, claimedAt := None));
    } else {
      assert RunAt(s, longer[|longer| - 1], t, kind, Over(true), recorded);
    }
  }
}
