/** The lock-free cache of which plugins a confined principal may reach
    (application_context/plugin_scoped_access.go).

    Each atomic load, store, clock reading and database read is its own step; calls,
    writers in this process and commits of other processes interleave freely. The
    publishing mutex only removes interleavings, so no step here waits for it. */
module ScopedAccess {
  import opened Outcomes

  const TTL: int := 30_000_000_000

  datatype PluginRow = PluginRow(enabled: bool, allowScoped: bool)

  type Db = map<string, PluginRow>

  /** Only an enabled plugin can be reached at all. */
  function Allowed(db: Db): set<string> {
    set n | n in db && db[n].enabled && db[n].allowScoped
  }

  /** The database after each commit; the version of a read is the index it saw. */
  datatype Commit = Commit(db: Db, at: int)

  /** `version` is not in the original: it says which commit `allowed` was read from. */
  datatype Snapshot = Snapshot(allowed: set<string>, generation: nat, observedBy: int, version: nat)

  datatype Pc =
    | Started
    | GotGeneration(generation: nat)
    | GotSnapshot(generation: nat, cached: Option<Snapshot>)
    | Missed
    | Observed(at: int)
    | Reading(at: int, generation: nat)
    | Publishing(mine: Snapshot)
    | GenerationOk(mine: Snapshot)
    | Storing(mine: Snapshot, checkedAt: int)
    | Unpublished(mine: Snapshot)
    | Answered(from: Snapshot, checkedAt: int)
    | Refused

  /** `floor` is the newest version whose local write had been invalidated when the call
      began, and `since` the instant it began. */
  datatype Call = Call(plugin: string, floor: nat, since: int, pc: Pc)

  datatype Writer = Committed(version: nat) | Bumped(version: nat) | Invalidated

  /** `floors` gives, for each generation so far, the version the database had when the
      cache moved to it; `floor` is the newest version fully invalidated. */
  datatype State = State(clock: int, commits: seq<Commit>, generation: nat, snapshot: Option<Snapshot>,
    calls: map<nat, Call>, writers: map<nat, Writer>, floors: seq<nat>, floor: nat)

  datatype Step =
    | Wait(delta: nat)
    | RemoteCommit(db: Db)
    | LocalCommit(w: nat, db: Db)
    | BumpGeneration(w: nat)
    | ClearSnapshot(w: nat)
    | Begin(c: nat, plugin: string)
    | LoadGeneration(c: nat)
    | LoadSnapshot(c: nat)
    | JudgeSnapshot(c: nat)
    | Observe(c: nat)
    | StampGeneration(c: nat)
    | ReadDb(c: nat)
    | ReadFails(c: nat)
    | CompareGeneration(c: nat)
    | CheckFresh(c: nat)
    | Store(c: nat)
    | CheckOwn(c: nat)

  predicate Stale(s: State, snapshot: Snapshot) {
    s.clock - snapshot.observedBy > TTL
  }

  predicate Enabled(s: State, step: Step) {
    s.commits != [] && match step
      case Wait(_) => true
      case RemoteCommit(_) => true
      case LocalCommit(w, _) => w !in s.writers
      case BumpGeneration(w) => w in s.writers && s.writers[w].Committed?
      case ClearSnapshot(w) => w in s.writers && s.writers[w].Bumped?
      case Begin(c, plugin) => c !in s.calls && plugin != ""
      case LoadGeneration(c) => c in s.calls && s.calls[c].pc.Started?
      case LoadSnapshot(c) => c in s.calls && s.calls[c].pc.GotGeneration?
      case JudgeSnapshot(c) => c in s.calls && s.calls[c].pc.GotSnapshot?
      case Observe(c) => c in s.calls && s.calls[c].pc.Missed?
      case StampGeneration(c) => c in s.calls && s.calls[c].pc.Observed?
      case ReadDb(c) => c in s.calls && s.calls[c].pc.Reading?
      case ReadFails(c) => c in s.calls && s.calls[c].pc.Reading?
      case CompareGeneration(c) => c in s.calls && s.calls[c].pc.Publishing?
      case CheckFresh(c) => c in s.calls && s.calls[c].pc.GenerationOk?
      case Store(c) => c in s.calls && s.calls[c].pc.Storing?
      case CheckOwn(c) => c in s.calls && s.calls[c].pc.Unpublished?
  }

  function To(s: State, c: nat, pc: Pc): State
    requires c in s.calls
  {
    s.(calls := s.calls[c := s.calls[c].(pc := pc)])
  }

  function Version(s: State): nat
    requires s.commits != []
  {
    |s.commits| - 1
  }

  function Apply(s: State, step: Step): State
    requires Enabled(s, step)
  {
    match step
    case Wait(delta) => s.(clock := s.clock + delta)
    case RemoteCommit(db) => s.(commits := s.commits + [Commit(db, s.clock)])
    case LocalCommit(w, db) =>
      s.(commits := s.commits + [Commit(db, s.clock)], writers := s.writers[w := Committed(|s.commits|)])
    case BumpGeneration(w) =>
      s.(generation := s.generation + 1, floors := s.floors + [Version(s)],
         writers := s.writers[w := Bumped(s.writers[w].version)])
    case ClearSnapshot(w) =>
      var v := s.writers[w].version;
      s.(snapshot := None, writers := s.writers[w := Invalidated], floor := if v > s.floor then v else s.floor)
    case Begin(c, plugin) => s.(calls := s.calls[c := Call(plugin, s.floor, s.clock, Started)])
    case LoadGeneration(c) => To(s, c, GotGeneration(s.generation))
    case LoadSnapshot(c) => To(s, c, GotSnapshot(s.calls[c].pc.generation, s.snapshot))
    case JudgeSnapshot(c) =>
      var pc := s.calls[c].pc;
      if pc.cached.None? || pc.cached.value.generation != pc.generation || Stale(s, pc.cached.value) then
        To(s, c, Missed)
      else
        To(s, c, Answered(pc.cached.value, s.clock))
    case Observe(c) => To(s, c, Observed(s.clock))
    case StampGeneration(c) => To(s, c, Reading(s.calls[c].pc.at, s.generation))
    case ReadDb(c) =>
      var pc := s.calls[c].pc;
      To(s, c, Publishing(Snapshot(Allowed(s.commits[Version(s)].db), pc.generation, pc.at, Version(s))))
    case ReadFails(c) => To(s, c, Refused)
    case CompareGeneration(c) =>
      var mine := s.calls[c].pc.mine;
      To(s, c, if s.generation != mine.generation then Unpublished(mine) else GenerationOk(mine))
    case CheckFresh(c) =>
      var mine := s.calls[c].pc.mine;
      To(s, c, if Stale(s, mine) then Unpublished(mine) else Storing(mine, s.clock))
    case Store(c) =>
      var pc := s.calls[c].pc;
      To(s, c, Answered(pc.mine, pc.checkedAt)).(snapshot := Some(pc.mine))
    case CheckOwn(c) =>
      var mine := s.calls[c].pc.mine;
      To(s, c, if Stale(s, mine) then Refused else Answered(mine, s.clock))
  }

  predicate Init(s: State) {
    && |s.commits| == 1 && s.commits[0].at <= s.clock && s.generation == 0 && s.snapshot.None?
    && s.calls == map[] && s.writers == map[] && s.floors == [0] && s.floor == 0
  }

  ghost predicate IsBehavior(states: seq<State>, steps: seq<Step>) {
    && |states| == |steps| + 1 && Init(states[0])
    && forall i :: 0 <= i < |steps| ==> Follows(states[i], steps[i], states[i + 1])
  }

  predicate Follows(s: State, step: Step, next: State) {
    Enabled(s, step) && next == Apply(s, step)
  }

  // ---- what every snapshot means ----

  /** The history: instants are ordered, floors rise, and nothing is ahead of the database. */
  ghost predicate HistoryInv(s: State) {
    && s.commits != [] && |s.floors| == s.generation + 1
    && (forall i :: 0 <= i < |s.commits| ==> s.commits[i].at <= s.clock)
    && (forall g :: 0 <= g < |s.floors| ==> s.floors[g] <= s.floors[s.generation] <= Version(s))
    && s.floor <= s.floors[s.generation]
    && (forall w :: w in s.writers ==> WriterInv(s, s.writers[w]))
  }

  ghost predicate WriterInv(s: State, w: Writer)
    requires s.commits != [] && |s.floors| == s.generation + 1
  {
    match w
    case Committed(v) => v <= Version(s)
    case Bumped(v) => v <= s.floors[s.generation]
    case Invalidated => true
  }

  /** A read that began no earlier than `at` saw every commit before `at`. */
  ghost predicate SeesAllBefore(s: State, version: nat, at: int) {
    forall i :: version < i < |s.commits| ==> s.commits[i].at >= at
  }

  ghost predicate SnapshotInv(s: State, snap: Snapshot)
    requires HistoryInv(s)
  {
    && snap.version <= Version(s) && snap.allowed == Allowed(s.commits[snap.version].db)
    && snap.generation <= s.generation && s.floors[snap.generation] <= snap.version
    && snap.observedBy <= s.clock && SeesAllBefore(s, snap.version, snap.observedBy)
  }

  /** A snapshot this call may answer from: no older than what was settled when it began. */
  ghost predicate OwnInv(s: State, call: Call, snap: Snapshot)
    requires HistoryInv(s)
  {
    SnapshotInv(s, snap) && call.floor <= snap.version
  }

  ghost predicate CallInv(s: State, call: Call)
    requires HistoryInv(s)
  {
    && call.since <= s.clock && call.floor <= s.floors[s.generation]
    && match call.pc
      case GotGeneration(g) => g <= s.generation && call.floor <= s.floors[g]
      case GotSnapshot(g, cached) =>
        && g <= s.generation && call.floor <= s.floors[g]
        && (cached.Some? ==> SnapshotInv(s, cached.value))
      case Observed(at) => call.since <= at <= s.clock
      case Reading(at, g) => call.since <= at <= s.clock && g <= s.generation && call.floor <= s.floors[g]
      case Publishing(mine) => OwnInv(s, call, mine)
      case GenerationOk(mine) => OwnInv(s, call, mine)
      case Storing(mine, checkedAt) =>
        OwnInv(s, call, mine) && call.since <= checkedAt <= s.clock && checkedAt - TTL <= mine.observedBy
      case Unpublished(mine) => OwnInv(s, call, mine)
      case Answered(from, checkedAt) =>
        OwnInv(s, call, from) && call.since <= checkedAt <= s.clock && checkedAt - TTL <= from.observedBy
      case _ => true
  }

  ghost predicate Inv(s: State) {
    && HistoryInv(s)
    && (s.snapshot.Some? ==> SnapshotInv(s, s.snapshot.value))
    && (forall c :: c in s.calls ==> CallInv(s, s.calls[c]))
  }

  lemma HistoryStep(s: State, step: Step)
    requires Enabled(s, step) && HistoryInv(s)
    ensures HistoryInv(Apply(s, step))
  {
  }

  /** Time passes, commits and generations are only added. */
  ghost predicate Later(s: State, next: State) {
    && s.clock <= next.clock && s.commits <= next.commits && s.floors <= next.floors
    && (forall i :: |s.commits| <= i < |next.commits| ==> next.commits[i].at >= s.clock)
    && s.generation <= next.generation
  }

  lemma StepIsLater(s: State, step: Step)
    requires Enabled(s, step) && HistoryInv(s)
    ensures Later(s, Apply(s, step))
  {
  }

  lemma SnapshotKeeps(s: State, next: State, snap: Snapshot)
    requires HistoryInv(s) && HistoryInv(next) && Later(s, next) && SnapshotInv(s, snap)
    ensures SnapshotInv(next, snap)
  {
  }

  lemma CallKeeps(s: State, next: State, call: Call)
    requires HistoryInv(s) && HistoryInv(next) && Later(s, next) && CallInv(s, call)
    ensures CallInv(next, call)
  {
    assert s.floors[s.generation] == next.floors[s.generation];
    match call.pc
    case GotSnapshot(_, cached) => if cached.Some? { SnapshotKeeps(s, next, cached.value); }
    case Publishing(mine) => SnapshotKeeps(s, next, mine);
    case GenerationOk(mine) => SnapshotKeeps(s, next, mine);
    case Storing(mine, _) => SnapshotKeeps(s, next, mine);
    case Unpublished(mine) => SnapshotKeeps(s, next, mine);
    case Answered(from, _) => SnapshotKeeps(s, next, from);
    case _ =>
  }

  predicate MovesCall(step: Step, c: nat) {
    match step
    case Wait(_) => false
    case RemoteCommit(_) => false
    case LocalCommit(_, _) => false
    case BumpGeneration(_) => false
    case ClearSnapshot(_) => false
    case _ => step.c == c
  }

  lemma OthersUnmoved(s: State, step: Step, c: nat)
    requires Enabled(s, step) && !MovesCall(step, c)
    ensures c in Apply(s, step).calls <==> c in s.calls
    ensures c in s.calls ==> Apply(s, step).calls[c] == s.calls[c]
  {
  }

  predicate Loads(step: Step) {
    step.ReadDb? || step.CompareGeneration? || step.CheckFresh? || step.Store? || step.CheckOwn?
  }

  /** A call's own steps touch neither the history nor, except for a store, the cache. */
  lemma CallMoves(s: State, step: Step, c: nat)
    requires Enabled(s, step) && MovesCall(step, c) && !step.Begin? && Inv(s)
    ensures c in s.calls && c in Apply(s, step).calls
    ensures HistoryInv(Apply(s, step)) && CallInv(Apply(s, step), Apply(s, step).calls[c])
  {
    assert CallInv(s, s.calls[c]);
    if Loads(step) { LoadMoves(s, step, c); } else { LookupMoves(s, step, c); }
  }

  lemma LoadMoves(s: State, step: Step, c: nat)
    requires Enabled(s, step) && MovesCall(step, c) && Loads(step) && HistoryInv(s)
    requires c in s.calls && CallInv(s, s.calls[c])
    ensures c in Apply(s, step).calls
    ensures HistoryInv(Apply(s, step)) && CallInv(Apply(s, step), Apply(s, step).calls[c])
  {
    HistoryStep(s, step);
    var next := Apply(s, step);
    assert next.commits == s.commits && next.floors == s.floors && next.generation == s.generation;
    assert next.clock == s.clock;
  }

  lemma LookupMoves(s: State, step: Step, c: nat)
    requires Enabled(s, step) && MovesCall(step, c) && !step.Begin? && !Loads(step) && HistoryInv(s)
    requires c in s.calls && CallInv(s, s.calls[c]) && (s.snapshot.Some? ==> SnapshotInv(s, s.snapshot.value))
    ensures c in Apply(s, step).calls
    ensures HistoryInv(Apply(s, step)) && CallInv(Apply(s, step), Apply(s, step).calls[c])
  {
    HistoryStep(s, step);
    var next := Apply(s, step);
    assert next.commits == s.commits && next.floors == s.floors && next.generation == s.generation;
    assert next.clock == s.clock;
  }

  lemma BeginStep(s: State, step: Step)
    requires Enabled(s, step) && step.Begin? && Inv(s)
    ensures step.c in Apply(s, step).calls
    ensures HistoryInv(Apply(s, step)) && CallInv(Apply(s, step), Apply(s, step).calls[step.c])
  {
    HistoryStep(s, step);
  }

  lemma CacheStep(s: State, step: Step)
    requires Enabled(s, step) && Inv(s)
    ensures Apply(s, step).snapshot in {s.snapshot, None} || (step.Store? && step.c in s.calls
              && s.calls[step.c].pc.Storing? && Apply(s, step).snapshot == Some(s.calls[step.c].pc.mine))
  {
  }

  lemma InvStep(s: State, step: Step)
    requires Enabled(s, step) && Inv(s)
    ensures Inv(Apply(s, step))
  {
    var next := Apply(s, step);
    HistoryStep(s, step);
    StepIsLater(s, step);
    CacheStep(s, step);
    if next.snapshot.Some? {
      assert next.snapshot != s.snapshot ==> CallInv(s, s.calls[step.c]);
      SnapshotKeeps(s, next, next.snapshot.value);
    }
    forall c | c in next.calls ensures CallInv(next, next.calls[c]) {
      if !MovesCall(step, c) {
        OthersUnmoved(s, step, c);
        CallKeeps(s, next, s.calls[c]);
      } else if step.Begin? {
        BeginStep(s, step);
      } else {
        CallMoves(s, step, c);
      }
    }
  }

  lemma {:induction false} AlwaysInv(states: seq<State>, steps: seq<Step>, n: nat)
    requires IsBehavior(states, steps) && n < |states|
    ensures Inv(states[n])
  {
    if n > 0 {
      AlwaysInv(states, steps, n - 1);
      InvStep(states[n - 1], steps[n - 1]);
    }
  }

  /** What a call that got as far as a snapshot tells its caller. */
  function Answer(call: Call): bool
    requires call.pc.Answered?
  {
    call.plugin in call.pc.from.allowed
  }

  /** Freshness: in every interleaving, an answer is what some commit of the database
      said, one no older than any local write invalidated before the call began, and one
      that no commit replaced more than a TTL, 30 seconds, before the call's own freshness check. */
  lemma AnswersAreFresh(states: seq<State>, steps: seq<Step>, n: nat, c: nat) returns (version: nat)
    requires IsBehavior(states, steps) && n < |states|
    requires c in states[n].calls && states[n].calls[c].pc.Answered?
    ensures version < |states[n].commits|
    ensures var plugin, db := states[n].calls[c].plugin, states[n].commits[version].db;
      Answer(states[n].calls[c]) <==> plugin in db && db[plugin].enabled && db[plugin].allowScoped
    ensures states[n].calls[c].floor <= version
    ensures states[n].calls[c].since <= states[n].calls[c].pc.checkedAt <= states[n].clock
    ensures forall i :: version < i < |states[n].commits| ==>
      states[n].commits[i].at >= states[n].calls[c].pc.checkedAt - 30_000_000_000
  {
    AlwaysInv(states, steps, n);
    assert CallInv(states[n], states[n].calls[c]);
    version := states[n].calls[c].pc.from.version;
  }

  /** The floor is what it is called: once a writer has cleared the snapshot, every later
      call starts with a floor at or above that write. */
  lemma {:induction false} InvalidatedWritesAreFloors(states: seq<State>, steps: seq<Step>, m: nat, n: nat, c: nat)
    requires IsBehavior(states, steps) && m < n < |states|
    requires steps[m].ClearSnapshot? && c !in states[m + 1].calls && c in states[n].calls
    ensures states[m].writers[steps[m].w].Bumped?
    ensures states[n].calls[c].floor >= states[m].writers[steps[m].w].version
  {
    assert Enabled(states[m], steps[m]);
    assert states[m + 1] == Apply(states[m], steps[m]);
    FloorsRise(states, steps, m + 1, n, c, states[m].writers[steps[m].w].version);
  }

  ghost predicate FloorAtLeast(s: State, c: nat, floor: nat) {
    s.floor >= floor && (c in s.calls ==> s.calls[c].floor >= floor)
  }

  lemma FloorStep(s: State, step: Step, next: State, c: nat, floor: nat)
    requires Follows(s, step, next) && FloorAtLeast(s, c, floor)
    ensures FloorAtLeast(next, c, floor)
  {
  }

  lemma {:induction false} FloorsRise(states: seq<State>, steps: seq<Step>, m: nat, n: nat, c: nat, floor: nat)
    requires IsBehavior(states, steps) && m <= n < |states| && FloorAtLeast(states[m], c, floor)
    ensures FloorAtLeast(states[n], c, floor)
    decreases n - m
  {
    if m < n {
      FloorsRise(states, steps, m, n - 1, c, floor);
      FloorStep(states[n - 1], steps[n - 1], states[n], c, floor);
    }
  }

  /** From this commit on no row of the plugin has both columns set. */
  ghost predicate ShutFrom(s: State, plugin: string, first: nat) {
    forall i :: first <= i < |s.commits| && plugin in s.commits[i].db ==>
      !s.commits[i].db[plugin].enabled || !s.commits[i].db[plugin].allowScoped
  }

  /** A writer remembers which commit was its own. */
  ghost predicate Wrote(s: State, w: nat, version: nat) {
    w in s.writers && (s.writers[w].Committed? || s.writers[w].Bumped? ==> s.writers[w].version == version)
  }

  lemma WroteStep(s: State, step: Step, next: State, w: nat, version: nat)
    requires Follows(s, step, next) && Wrote(s, w, version)
    ensures Wrote(next, w, version)
  {
  }

  lemma {:induction false} StillWrote(states: seq<State>, steps: seq<Step>, m: nat, n: nat, w: nat, version: nat)
    requires IsBehavior(states, steps) && m <= n < |states| && Wrote(states[m], w, version)
    ensures Wrote(states[n], w, version)
    decreases n - m
  {
    if m < n {
      StillWrote(states, steps, m, n - 1, w, version);
      WroteStep(states[n - 1], steps[n - 1], states[n], w, version);
    }
  }

  /** A local revocation takes effect at once: once a write of this process has committed,
      and its invalidation has cleared the snapshot, a call that starts is refused, unless
      the row has both columns set again in that commit or a later one. */
  lemma RevocationIsImmediate(states: seq<State>, steps: seq<Step>, l: nat, m: nat, n: nat, c: nat)
    requires IsBehavior(states, steps) && l < m < n < |states|
    requires steps[l].LocalCommit? && steps[m] == ClearSnapshot(steps[l].w)
    requires c !in states[m + 1].calls && c in states[n].calls && states[n].calls[c].pc.Answered?
    requires ShutFrom(states[n], states[n].calls[c].plugin, |states[l].commits|)
    ensures !Answer(states[n].calls[c])
  {
    var w := steps[l].w;
    assert Follows(states[l], steps[l], states[l + 1]) && Follows(states[m], steps[m], states[m + 1]);
    StillWrote(states, steps, l + 1, m, w, |states[l].commits|);
    InvalidatedWritesAreFloors(states, steps, m, n, c);
    var version := AnswersAreFresh(states, steps, n, c);
  }

  /** Any revocation, by this process or another, is served for at most one TTL. */
  lemma RevocationTakesAtMostTtl(states: seq<State>, steps: seq<Step>, n: nat, c: nat, revoked: nat)
    requires IsBehavior(states, steps) && n < |states|
    requires c in states[n].calls && states[n].calls[c].pc.Answered? && revoked < |states[n].commits|
    requires states[n].commits[revoked].at < states[n].calls[c].pc.checkedAt - 30_000_000_000
    requires ShutFrom(states[n], states[n].calls[c].plugin, revoked)
    ensures !Answer(states[n].calls[c])
  {
    var version := AnswersAreFresh(states, steps, n, c);
    assert version >= revoked;
  }

  // ---- a call gets an answer ----

  lemma Extend(states: seq<State>, steps: seq<Step>, step: Step) returns (longer: seq<State>, more: seq<Step>)
    requires IsBehavior(states, steps) && Enabled(states[|states| - 1], step)
    ensures longer == states + [Apply(states[|states| - 1], step)] && more == steps + [step]
    ensures IsBehavior(longer, more)
  {
    longer, more := states + [Apply(states[|states| - 1], step)], steps + [step];
  }

  /** Only this call has moved since s, to this point. */
  predicate CallAt(s: State, now: State, c: nat, plugin: string, pc: Pc) {
    now == s.(calls := s.calls[c := Call(plugin, s.floor, s.clock, pc)])
  }

  predicate Serves(s: State) {
    s.snapshot.Some? && s.snapshot.value.generation == s.generation && s.clock <= s.snapshot.value.observedBy + TTL
  }

  /** The call has an answer, no commit has come in between, and unless the cache served
      the call the answer is what the database says now, and is cached. */
  predicate HasAnswer(s: State, end: State, c: nat, plugin: string) {
    && c in end.calls && end.calls[c].plugin == plugin && end.calls[c].pc.Answered?
    && s.commits != [] && end.commits == s.commits
    && (Serves(s) ==> end.calls[c].pc.from == s.snapshot.value && end.snapshot == s.snapshot)
    && (!Serves(s) ==>
          && (Answer(end.calls[c]) <==>
                var db := s.commits[|s.commits| - 1].db;
                plugin in db && db[plugin].enabled && db[plugin].allowScoped)
          && Serves(end) && end.snapshot == Some(end.calls[c].pc.from))
  }

  /** In any reachable state a call that is left alone comes to an answer: from the cached
      snapshot if it is of this generation and no older than a TTL, and otherwise from the
      database as it is now. */
  lemma CallsGetAnswers(states: seq<State>, steps: seq<Step>, c: nat, plugin: string)
    returns (longer: seq<State>, more: seq<Step>)
    requires IsBehavior(states, steps) && plugin != "" && c !in states[|states| - 1].calls
    ensures IsBehavior(longer, more) && states <= longer && steps <= more
    ensures HasAnswer(states[|states| - 1], longer[|longer| - 1], c, plugin)
  {
    var s := states[|states| - 1];
    AlwaysInv(states, steps, |steps|);
    longer, more := LookUp(states, steps, c, plugin);
    longer, more := Judge(longer, more, s, c, plugin);
    if !Serves(s) {
      longer, more := ReadThrough(longer, more, s, c, plugin);
      longer, more := PublishAnswer(longer, more, s, c, plugin);
    }
  }

  lemma LookUp(states: seq<State>, steps: seq<Step>, c: nat, plugin: string)
    returns (longer: seq<State>, more: seq<Step>)
    requires IsBehavior(states, steps) && plugin != "" && c !in states[|states| - 1].calls
    requires states[|states| - 1].commits != []
    ensures IsBehavior(longer, more) && states <= longer && steps <= more
    ensures var s := states[|states| - 1];
      CallAt(s, longer[|longer| - 1], c, plugin, GotSnapshot(s.generation, s.snapshot))
  {
    var s := states[|states| - 1];
    longer, more := Extend(states, steps, Begin(c, plugin));
    assert CallAt(s, longer[|longer| - 1], c, plugin, Started);
    longer, more := Extend(longer, more, LoadGeneration(c));
    assert CallAt(s, longer[|longer| - 1], c, plugin, GotGeneration(s.generation));
    longer, more := Extend(longer, more, LoadSnapshot(c));
  }

  lemma Judge(states: seq<State>, steps: seq<Step>, s: State, c: nat, plugin: string)
    returns (longer: seq<State>, more: seq<Step>)
    requires IsBehavior(states, steps) && s.commits != []
    requires CallAt(s, states[|states| - 1], c, plugin, GotSnapshot(s.generation, s.snapshot))
    ensures IsBehavior(longer, more) && states <= longer && steps <= more
    ensures CallAt(s, longer[|longer| - 1], c, plugin,
              if Serves(s) then Answered(s.snapshot.value, s.clock) else Missed)
  {
    longer, more := Extend(states, steps, JudgeSnapshot(c));
  }

  function Fresh(s: State): Snapshot
    requires s.commits != []
  {
    Snapshot(Allowed(s.commits[Version(s)].db), s.generation, s.clock, Version(s))
  }

  lemma ReadThrough(states: seq<State>, steps: seq<Step>, s: State, c: nat, plugin: string)
    returns (longer: seq<State>, more: seq<Step>)
    requires IsBehavior(states, steps) && s.commits != [] && CallAt(s, states[|states| - 1], c, plugin, Missed)
    ensures IsBehavior(longer, more) && states <= longer && steps <= more
    ensures CallAt(s, longer[|longer| - 1], c, plugin, Publishing(Fresh(s)))
  {
    longer, more := Extend(states, steps, Observe(c));
    assert CallAt(s, longer[|longer| - 1], c, plugin, Observed(s.clock));
    longer, more := Extend(longer, more, StampGeneration(c));
    assert CallAt(s, longer[|longer| - 1], c, plugin, Reading(s.clock, s.generation));
    longer, more := Extend(longer, more, ReadDb(c));
  }

  lemma PublishAnswer(states: seq<State>, steps: seq<Step>, s: State, c: nat, plugin: string)
    returns (longer: seq<State>, more: seq<Step>)
    requires IsBehavior(states, steps) && s.commits != []
    requires CallAt(s, states[|states| - 1], c, plugin, Publishing(Fresh(s)))
    ensures IsBehavior(longer, more) && states <= longer && steps <= more
    ensures CallAt(s, longer[|longer| - 1].(snapshot := s.snapshot), c, plugin, Answered(Fresh(s), s.clock))
    ensures longer[|longer| - 1].snapshot == Some(Fresh(s))
  {
    longer, more := Extend(states, steps, CompareGeneration(c));
    assert CallAt(s, longer[|longer| - 1], c, plugin, GenerationOk(Fresh(s)));
    longer, more := Extend(longer, more, CheckFresh(c));
    assert CallAt(s, longer[|longer| - 1], c, plugin, Storing(Fresh(s), s.clock));
    longer, more := Extend(longer, more, Store(c));
  }
}
