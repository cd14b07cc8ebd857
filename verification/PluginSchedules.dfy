/** The stored half of plugin schedules: rows, the conditional statements that claim,
    release, complete and advance them, and the two operations built from those
    (application_context/plugin_schedule_context.go). */
module PluginSchedules {
  import opened Outcomes

  // Instants and durations are nanoseconds.
  const SECOND: int := 1_000_000_000
  const MINUTE: int := 60 * SECOND
  const DISPATCH_WAIT: int := 10 * SECOND
  const MAX_ASYNC_JOB: int := 5 * MINUTE
  const CLAIM_TTL: int := DISPATCH_WAIT + MAX_ASYNC_JOB + 2 * MINUTE

  datatype Overlap = Skip | Allow

  datatype RunOutcome = RunOutcome(at: int, failed: bool)

  /** A row. A claim token of 0 is the empty string: nobody holds the row. */
  datatype Row = Row(plugin: string, schedule: string, everySeconds: int, overlap: Overlap, nextDue: int,
    token: nat, claimedAt: Option<int>, last: Option<RunOutcome>, runs: nat, owner: Option<nat>)

  datatype ScheduleError = NotFound | NotDeclared | Unowned | Busy | EmptyToken

  // ---- single statements, as functions of the row they match ----

  predicate Unheld(row: Row, now: int) {
    row.token == 0 || row.claimedAt.None? || row.claimedAt.value < now - CLAIM_TTL
  }

  predicate Claimable(row: Row, now: int, requireDue: bool) {
    (requireDue ==> row.nextDue <= now) && row.owner.Some? && Unheld(row, now)
  }

  function Claimed(row: Row, token: nat, now: int): Row {
    row.(token := token, claimedAt := Some(now))
  }

  function Interval(row: Row): int {
    if row.everySeconds * SECOND <= 0 then MINUTE else row.everySeconds * SECOND
  }

  function Freed(row: Row): Row {
    row.(token := 0, claimedAt := None)
  }

  /** The three statements conditional on the claim token change nothing when another
      run's token, or none, is on the row. */
  function Released(row: Row, token: nat): Row {
    if row.token != token then row else Freed(row)
  }

  function Advanced(row: Row, token: nat, now: int, every: int): Row {
    if row.token != token then row else Freed(row).(nextDue := now + every)
  }

  function Completed(row: Row, token: nat, now: int, every: int, failed: bool): Row {
    if row.token != token then row
    else Freed(row).(nextDue := now + every, last := Some(RunOutcome(now, failed)), runs := row.runs + 1)
  }

  function Recorded(row: Row, now: int, failed: bool): Row {
    row.(last := Some(RunOutcome(now, failed)), runs := row.runs + 1)
  }

  /** What a plugin load declares about one schedule; an unknown policy means skip. */
  datatype Registration = Registration(schedule: string, everySeconds: int, overlap: string)

  function OverlapOf(policy: string): Overlap {
    if policy == "allow" then Allow else Skip
  }

  function Synced(row: Row, reg: Registration, owner: Option<nat>): Row {
    row.(everySeconds := reg.everySeconds, overlap := OverlapOf(reg.overlap),
         owner := if owner.Some? then owner else row.owner)
  }

  /** Everything a sync must leave alone: the claim, the due time, the history, the key,
      and an owner once there is one. */
  predicate KeepsRun(before: Row, after: Row) {
    && after.plugin == before.plugin && after.schedule == before.schedule
    && after.token == before.token && after.claimedAt == before.claimedAt
    && after.nextDue == before.nextDue && after.last == before.last && after.runs == before.runs
    && (before.owner.Some? ==> after.owner.Some?)
  }

  /** What syncing a plugin for this owner may do to the table. */
  ghost predicate SyncedRows(before: map<nat, Row>, after: map<nat, Row>, plugin: string, owner: Option<nat>) {
    && (forall id :: id in before ==> id in after && KeepsRun(before[id], after[id]))
    && (forall id :: id in before ==> after[id].owner in {before[id].owner, owner})
    && (forall id :: id in before && before[id].plugin != plugin ==> after[id] == before[id])
    && (forall id :: id in after && id !in before ==>
          after[id].plugin == plugin && after[id].token == 0 && after[id].runs == 0 && after[id].owner == owner)
  }

  lemma SyncedRowsThen(a: map<nat, Row>, b: map<nat, Row>, c: map<nat, Row>, plugin: string, owner: Option<nat>)
    requires SyncedRows(a, b, plugin, owner) && SyncedRows(b, c, plugin, owner)
    ensures SyncedRows(a, c, plugin, owner)
  {
    forall id | id in a ensures id in c && KeepsRun(a[id], c[id]) && c[id].owner in {a[id].owner, owner} {
      assert KeepsRun(a[id], b[id]) && KeepsRun(b[id], c[id]);
    }
    forall id | id in c && id !in a
      ensures c[id].plugin == plugin && c[id].token == 0 && c[id].runs == 0 && c[id].owner == owner
    {
      if id in b { assert KeepsRun(b[id], c[id]); }
    }
  }

  lemma StillDeclared(b: map<nat, Row>, c: map<nat, Row>, plugin: string, owner: Option<nat>, schedule: string)
    requires SyncedRows(b, c, plugin, owner) && Declared(b, plugin, schedule)
    ensures Declared(c, plugin, schedule)
  {
    var id :| id in b && b[id].plugin == plugin && b[id].schedule == schedule;
    assert KeepsRun(b[id], c[id]);
  }

  /** The last declaration of a schedule in a load, if there is one. */
  function LastDeclared(regs: seq<Registration>, schedule: string): Option<Registration> {
    if regs == [] then None
    else if regs[|regs| - 1].schedule == schedule then Some(regs[|regs| - 1])
    else LastDeclared(regs[..|regs| - 1], schedule)
  }

  /** The plugin's rows say what it last declared; those it no longer declares are as they
      were. */
  ghost predicate UpToDate(before: map<nat, Row>, after: map<nat, Row>, plugin: string, owner: Option<nat>,
    regs: seq<Registration>)
  {
    forall id :: id in after && after[id].plugin == plugin ==>
      RowUpToDate(before, id, after[id], owner, LastDeclared(regs, after[id].schedule))
  }

  predicate RowUpToDate(before: map<nat, Row>, id: nat, row: Row, owner: Option<nat>, reg: Option<Registration>) {
    match reg
    case None => id in before && row == before[id]
    case Some(r) =>
      && row.everySeconds == r.everySeconds && row.overlap == (if r.overlap == "allow" then Allow else Skip)
      && (owner.Some? ==> row.owner == owner)
  }

  /** The first declaration of a schedule in a load: the one that inserts its row. */
  function FirstDeclared(regs: seq<Registration>, schedule: string): Option<Registration> {
    if regs == [] then None
    else
      var earlier := FirstDeclared(regs[..|regs| - 1], schedule);
      var last := regs[|regs| - 1];
      if earlier.Some? then earlier else if last.schedule == schedule then Some(last) else None
  }

  /** A row that is new has not run, and is due one declared interval after the sync. */
  ghost predicate NewRowsWait(before: map<nat, Row>, after: map<nat, Row>, regs: seq<Registration>, now: int) {
    forall id :: id in after && id !in before ==> Waits(after[id], FirstDeclared(regs, after[id].schedule), now)
  }

  predicate Waits(row: Row, reg: Option<Registration>, now: int) {
    reg.Some? && row.nextDue == now + reg.value.everySeconds * SECOND && row.claimedAt.None? && row.last.None?
  }

  lemma NewRowsWaitOneMore(start: map<nat, Row>, before: map<nat, Row>, after: map<nat, Row>, plugin: string,
    owner: Option<nat>, regs: seq<Registration>, reg: Registration, now: int, id: nat)
    requires SyncedTo(start, before, plugin, owner, regs, now)
    requires WroteOne(before, after, plugin, reg, owner, now, id)
    ensures NewRowsWait(start, after, regs + [reg], now)
  {
    assert (regs + [reg])[..|regs|] == regs;
    forall other | other in after && other !in start
      ensures Waits(after[other], FirstDeclared(regs + [reg], after[other].schedule), now)
    {
      FirstDeclaredHasRow(before, plugin, regs, reg.schedule);
    }
  }

  lemma {:induction false} FirstDeclaredHasRow(rows: map<nat, Row>, plugin: string, regs: seq<Registration>,
    schedule: string)
    requires forall k :: 0 <= k < |regs| ==> Declared(rows, plugin, regs[k].schedule)
    ensures FirstDeclared(regs, schedule).Some? ==> Declared(rows, plugin, schedule)
  {
    if regs != [] {
      FirstDeclaredHasRow(rows, plugin, regs[..|regs| - 1], schedule);
    }
  }

  /** One more declaration, written to the row of its key and to no other. */
  lemma UpToDateOneMore(before: map<nat, Row>, now: map<nat, Row>, after: map<nat, Row>, plugin: string,
    owner: Option<nat>, regs: seq<Registration>, reg: Registration, id: nat)
    requires UpToDate(before, now, plugin, owner, regs)
    requires id in after && after == now[id := after[id]]
    requires after[id].plugin == plugin && after[id].schedule == reg.schedule
    requires RowUpToDate(before, id, after[id], owner, Some(reg))
    requires forall other :: other in now && other != id ==>
      now[other].plugin != plugin || now[other].schedule != reg.schedule
    ensures UpToDate(before, after, plugin, owner, regs + [reg])
  {
    assert (regs + [reg])[..|regs|] == regs;
    forall other | other in after && after[other].plugin == plugin
      ensures RowUpToDate(before, other, after[other], owner, LastDeclared(regs + [reg], after[other].schedule))
    {
      if other != id { assert other in now && after[other] == now[other]; }
    }
  }

  /** The whole effect of a sync: what it may change, what the plugin's rows then say, that
      every declared schedule has one, and when a new one is due. */
  ghost predicate SyncedTo(before: map<nat, Row>, after: map<nat, Row>, plugin: string, owner: Option<nat>,
    regs: seq<Registration>, now: int)
  {
    && SyncedRows(before, after, plugin, owner) && UpToDate(before, after, plugin, owner, regs)
    && NewRowsWait(before, after, regs, now)
    && forall k :: 0 <= k < |regs| ==> Declared(after, plugin, regs[k].schedule)
  }

  /** One registration written: the row of its key updated, or a new one inserted. */
  ghost predicate WroteOne(before: map<nat, Row>, after: map<nat, Row>, plugin: string, reg: Registration,
    owner: Option<nat>, now: int, id: nat)
  {
    && id in after && after == before[id := after[id]]
    && after[id] == (if id in before then Synced(before[id], reg, owner) else NewRow(plugin, reg, owner, now))
    && after[id].plugin == plugin && after[id].schedule == reg.schedule
    && (forall other :: other in before && other != id ==>
          before[other].plugin != plugin || before[other].schedule != reg.schedule)
  }

  lemma WroteOneSyncs(before: map<nat, Row>, after: map<nat, Row>, plugin: string, reg: Registration,
    owner: Option<nat>, now: int, id: nat)
    requires WroteOne(before, after, plugin, reg, owner, now, id)
    ensures SyncedRows(before, after, plugin, owner)
  {
  }

  lemma SyncedOneMore(start: map<nat, Row>, before: map<nat, Row>, after: map<nat, Row>, plugin: string,
    owner: Option<nat>, regs: seq<Registration>, reg: Registration, now: int, id: nat)
    requires SyncedTo(start, before, plugin, owner, regs, now)
    requires WroteOne(before, after, plugin, reg, owner, now, id)
    ensures SyncedTo(start, after, plugin, owner, regs + [reg], now)
  {
    WroteOneSyncs(before, after, plugin, reg, owner, now, id);
    SyncedRowsThen(start, before, after, plugin, owner);
    UpToDateOneMore(start, before, after, plugin, owner, regs, reg, id);
    NewRowsWaitOneMore(start, before, after, plugin, owner, regs, reg, now, id);
    var longer := regs + [reg];
    forall k | 0 <= k < |longer| ensures Declared(after, plugin, longer[k].schedule) {
      if k < |regs| { StillDeclared(before, after, plugin, owner, regs[k].schedule); }
    }
  }

  /** The declared interval in nanoseconds; a minute for one that is not positive. */
  function EveryOrMinute(seconds: int): (every: int)
    ensures seconds > 0 ==> every == seconds * 1_000_000_000
    ensures seconds <= 0 ==> every == 60_000_000_000
  {
    if seconds > 0 then seconds * 1_000_000_000 else 60_000_000_000
  }

  class ScheduleStore {
    var rows: map<nat, Row>
    var nextId: nat

    /** The unique index on (plugin, schedule), and ids handed out once. */
    ghost predicate Valid()
      reads this
    {
      && (forall id :: id in rows ==> id < nextId)
      && (forall a, b :: a in rows && b in rows && a != b ==>
            (rows[a].plugin, rows[a].schedule) != (rows[b].plugin, rows[b].schedule))
    }

    constructor ()
      ensures Valid() && rows == map[]
    {
      rows, nextId := map[], 1;
    }

    /** The compare-and-set both claim paths share. A token on the row does not hold it
        for ever: it holds for the TTL after the instant it was written with. */
    method ClaimPluginSchedule(id: nat, claimToken: nat, now: int, requireDue: bool)
      returns (r: Result<bool, ScheduleError>)
      requires Valid()
      modifies this`rows
      ensures Valid()
      ensures claimToken == 0 <==> r.Err?
      ensures r.Err? ==> r.error == EmptyToken
      ensures r.Ok? ==> (r.value <==>
        && id in old(rows) && old(rows)[id].owner.Some? && (requireDue ==> old(rows)[id].nextDue <= now)
        && (old(rows)[id].token == 0 || old(rows)[id].claimedAt.None?
            || old(rows)[id].claimedAt.value + CLAIM_TTL < now))
      ensures rows.Keys == old(rows).Keys
      ensures r == Ok(true) ==> rows[id] == old(rows)[id].(token := claimToken, claimedAt := Some(now))
      ensures forall other :: other in rows && (other != id || r != Ok(true)) ==> rows[other] == old(rows)[other]
    {
      if claimToken == 0 {
        return Err(EmptyToken);
      }
      if id in rows && Claimable(rows[id], now, requireDue) {
        rows := rows[id := Claimed(rows[id], claimToken, now)];
        return Ok(true);
      }
      r := Ok(false);
    }

    method ReleasePluginScheduleClaim(id: nat, claimToken: nat)
      requires Valid()
      modifies this`rows
      ensures Valid() && rows.Keys == old(rows).Keys
      ensures id in rows && old(rows)[id].token == claimToken ==>
        rows[id] == old(rows)[id].(token := 0, claimedAt := None)
      ensures forall other :: other in rows && (other != id || old(rows)[id].token != claimToken) ==>
        rows[other] == old(rows)[other]
    {
      if id in rows && rows[id].token == claimToken {
        rows := rows[id := Freed(rows[id])];
      }
    }

    method CompletePluginScheduleRun(id: nat, claimToken: nat, failed: bool, now: int)
      requires Valid()
      modifies this`rows
      ensures Valid()
      ensures rows.Keys == old(rows).Keys
      ensures id in rows && old(rows)[id].token == claimToken ==>
        rows[id] == old(rows)[id].(token := 0, claimedAt := None,
                                   nextDue := now + EveryOrMinute(old(rows)[id].everySeconds),
                                   last := Some(RunOutcome(now, failed)), runs := old(rows)[id].runs + 1)
      ensures forall other :: other in rows && (other != id || old(rows)[id].token != claimToken) ==>
        rows[other] == old(rows)[other]
    {
      if id !in rows || rows[id].token != claimToken {
        return;
      }
      var row := rows[id];
      var every := row.everySeconds * SECOND;
      if every <= 0 {
        every := MINUTE;
      }
      rows := rows[id := Completed(rows[id], claimToken, now, every, failed)];
    }

    method AdvancePluginScheduleAtDispatch(id: nat, claimToken: nat, now: int)
      requires Valid()
      modifies this`rows
      ensures Valid()
      ensures rows.Keys == old(rows).Keys
      ensures id in rows && old(rows)[id].token == claimToken ==>
        rows[id] == old(rows)[id].(token := 0, claimedAt := None,
                                   nextDue := now + EveryOrMinute(old(rows)[id].everySeconds))
      ensures forall other :: other in rows && (other != id || old(rows)[id].token != claimToken) ==>
        rows[other] == old(rows)[other]
    {
      if id !in rows || rows[id].token != claimToken {
        return;
      }
      var row := rows[id];
      var every := row.everySeconds * SECOND;
      if every <= 0 {
        every := MINUTE;
      }
      rows := rows[id := Advanced(rows[id], claimToken, now, every)];
    }

    method RecordPluginScheduleOutcome(id: nat, failed: bool, now: int)
      requires Valid()
      modifies this`rows
      ensures Valid() && rows.Keys == old(rows).Keys
      ensures id in rows ==>
        rows[id] == old(rows)[id].(last := Some(RunOutcome(now, failed)), runs := old(rows)[id].runs + 1)
      ensures forall other :: other in rows && other != id ==> rows[other] == old(rows)[other]
    {
      if id in rows {
        rows := rows[id := Recorded(rows[id], now, failed)];
      }
    }

    method PluginScheduleByKey(plugin: string, schedule: string) returns (id: Option<nat>)
      requires Valid()
      ensures id.Some? ==> id.value in rows && rows[id.value].plugin == plugin && rows[id.value].schedule == schedule
      ensures id.None? ==> forall k :: k in rows ==> rows[k].plugin != plugin || rows[k].schedule != schedule
    {
      if k :| k in rows && rows[k].plugin == plugin && rows[k].schedule == schedule {
        return Some(k);
      }
      id := None;
    }

    /** Up to the point where the run has started, RunNow: each refusal means what its
        name says, and the busy one that a claim younger than the TTL is on the row. */
    method RunNow(plugin: string, schedule: string, registered: bool, token: nat, now: int)
      returns (r: Result<nat, ScheduleError>)
      requires Valid() && token > 0
      modifies this`rows
      ensures Valid()
      ensures r == Err(NotFound) <==>
        forall k :: k in old(rows) ==> old(rows)[k].plugin != plugin || old(rows)[k].schedule != schedule
      ensures r != Err(EmptyToken) && (r == Err(NotDeclared) ==> !registered)
      ensures r.Ok? || r == Err(Unowned) || r == Err(Busy) ==> registered
      ensures r == Err(Unowned) || r == Err(Busy) ==>
        exists k :: k in old(rows) && old(rows)[k].plugin == plugin && old(rows)[k].schedule == schedule
          && (r == Err(Unowned) ==> old(rows)[k].owner.None?)
          && (r == Err(Busy) ==>
                old(rows)[k].owner.Some? && old(rows)[k].token != 0 && old(rows)[k].claimedAt.Some?
                && now <= old(rows)[k].claimedAt.value + CLAIM_TTL)
      ensures r.Ok? ==>
        && r.value in old(rows) && old(rows)[r.value].plugin == plugin && old(rows)[r.value].schedule == schedule
        && old(rows)[r.value].owner.Some?
        && (old(rows)[r.value].token == 0 || old(rows)[r.value].claimedAt.None?
            || old(rows)[r.value].claimedAt.value + CLAIM_TTL < now)
        && rows == old(rows)[r.value := old(rows)[r.value].(token := token, claimedAt := Some(now))]
      ensures r.Err? ==> rows == old(rows)
    {
      var found := PluginScheduleByKey(plugin, schedule);
      if found.None? {
        return Err(NotFound);
      }
      var id := found.value;
      if !registered {
        return Err(NotDeclared);
      }
      if rows[id].owner.None? {
        return Err(Unowned);
      }
      var claimed := ClaimPluginSchedule(id, token, now, false);
      if claimed != Ok(true) {
        return Err(Busy);
      }
      r := Ok(id);
    }

    /** Reconciles a plugin's rows with what it declares. It can land in the middle of a
        run: no claim, due time or history moves, and an owner is set but never cleared. */
    method SyncPluginSchedules(plugin: string, regs: seq<Registration>, owner: Option<nat>, now: int)
      requires Valid()
      modifies this
      ensures Valid() && SyncedTo(old(rows), rows, plugin, owner, regs, now)
    {
      for i := 0 to |regs|
        invariant Valid() && SyncedTo(old(rows), rows, plugin, owner, regs[..i], now)
      {
        ghost var before := rows;
        var id := SyncOne(plugin, regs[i], owner, now);
        SyncedOneMore(old(rows), before, rows, plugin, owner, regs[..i], regs[i], now, id);
        assert regs[..i + 1] == regs[..i] + [regs[i]];
      }
      assert regs[..|regs|] == regs;
    }

    /** One registration: update the row of that key, or insert an unclaimed one that is
        due an interval from now. */
    method SyncOne(plugin: string, reg: Registration, owner: Option<nat>, now: int) returns (id: nat)
      requires Valid()
      modifies this
      ensures Valid() && WroteOne(old(rows), rows, plugin, reg, owner, now, id)
    {
      var existing := PluginScheduleByKey(plugin, reg.schedule);
      match existing
      case Some(found) =>
        rows := rows[found := Synced(rows[found], reg, owner)];
        id := found;
      case None =>
        id := nextId;
        rows := rows[id := NewRow(plugin, reg, owner, now)];
        nextId := nextId + 1;
    }
  }

  function NewRow(plugin: string, reg: Registration, owner: Option<nat>, now: int): Row {
    Row(plugin, reg.schedule, reg.everySeconds, OverlapOf(reg.overlap),
      now + reg.everySeconds * SECOND, 0, None, None, 0, owner)
  }

  ghost predicate Declared(rows: map<nat, Row>, plugin: string, schedule: string) {
    exists id :: id in rows && rows[id].plugin == plugin && rows[id].schedule == schedule
  }
}
