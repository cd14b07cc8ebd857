/** The stored history of downloads: an upsert that keeps the latest outcome, a
    compare-and-set on the retry marker, deletion and the retention sweep
    (application_context/download_history_context.go). */
module DownloadHistory {
  import opened Outcomes

  datatype Status = Completed | Failed | Cancelled

  /** A finished attempt as the queue reports it; `data` stands for everything else the
      upsert copies (url, name, error, sizes, payload). */
  datatype Attempt = Attempt(jobId: string, status: Status, completedAt: Option<int>, createdAt: int,
    owner: Option<nat>, data: int)

  datatype Row = Row(jobId: string, status: Status, completedAt: Option<int>, createdAt: int,
    owner: Option<nat>, data: int, attempts: nat, marker: string, retryAt: Option<int>)

  type Rows = map<nat, Row>

  datatype HistoryError = NoJobId

  // ---- recording ----

  function Inserted(rec: Attempt): Row {
    Row(rec.jobId, rec.status, rec.completedAt, rec.createdAt, rec.owner, rec.data, 1, "", None)
  }

  /** An outcome never overwrites a newer one; a missing time on either side lets it through. */
  predicate Accepts(row: Row, rec: Attempt) {
    row.completedAt.None? || rec.completedAt.None? || rec.completedAt.value >= row.completedAt.value
  }

  function Overwritten(row: Row, rec: Attempt): Row {
    row.(status := rec.status, completedAt := rec.completedAt, data := rec.data, attempts := row.attempts + 1)
  }

  function Upserted(row: Option<Row>, rec: Attempt): Row {
    if row.None? then Inserted(rec)
    else if Accepts(row.value, rec) then Overwritten(row.value, rec) else row.value
  }

  /** The row of one job after its outcomes arrived in this order. */
  function RowAfter(recs: seq<Attempt>): Option<Row> {
    if recs == [] then None else Some(Upserted(RowAfter(recs[..|recs| - 1]), recs[|recs| - 1]))
  }

  predicate AllTimed(recs: seq<Attempt>) {
    forall i :: 0 <= i < |recs| ==> recs[i].completedAt.Some?
  }

  /** The latest completion, and of several at that instant the one that arrived last. */
  predicate IsLatest(recs: seq<Attempt>, k: nat)
    requires AllTimed(recs)
  {
    && k < |recs|
    && (forall i :: 0 <= i < |recs| ==> recs[i].completedAt.value <= recs[k].completedAt.value)
    && (forall i :: k < i < |recs| ==> recs[i].completedAt.value < recs[k].completedAt.value)
  }

  /** How many outcomes after the first were no older than everything before them. */
  function NewMaxima(recs: seq<Attempt>): nat
    requires AllTimed(recs)
  {
    if |recs| <= 1 then 0
    else
      var n := |recs| - 1;
      var record := forall i :: 0 <= i < n ==> recs[i].completedAt.value <= recs[n].completedAt.value;
      NewMaxima(recs[..n]) + if record then 1 else 0
  }

  /** Whatever the arrival order, the row is the outcome with the latest completion, and
      counts the first attempt and each accepted overwrite. */
  lemma {:induction false} LatestOutcomeWins(recs: seq<Attempt>) returns (k: nat)
    requires recs != [] && AllTimed(recs)
    ensures IsLatest(recs, k) && RowAfter(recs).Some?
    ensures var row := RowAfter(recs).value;
      && row.status == recs[k].status && row.completedAt == recs[k].completedAt && row.data == recs[k].data
      && row.attempts == 1 + NewMaxima(recs)
  {
    var n := |recs| - 1;
    if n == 0 {
      k := 0;
      assert RowAfter(recs[..0]) == None;
    } else {
      assert forall i :: 0 <= i < n ==> recs[..n][i] == recs[i];
      k := LatestOutcomeWins(recs[..n]);
      assert RowAfter(recs) == Some(Upserted(RowAfter(recs[..n]), recs[n]));
      if recs[k].completedAt.value <= recs[n].completedAt.value {
        k := n;
      }
    }
  }

  // ---- the table ----

  /** Whose rows a caller may touch: an ownerless row is nobody's. */
  datatype Scope = Unrestricted | OwnedBy(user: Option<nat>)

  predicate Visible(row: Row, scope: Scope) {
    scope.Unrestricted? || (scope.user.Some? && row.owner == scope.user)
  }

  predicate NotRetriedSince(row: Row, since: int) {
    row.retryAt.None? || row.retryAt.value < since
  }

  /** A retention window: its statuses, and the instant before which a row has expired. */
  datatype Window = Window(statuses: set<Status>, cutoff: int)

  function FinishedAt(row: Row): int {
    if row.completedAt.Some? then row.completedAt.value else row.createdAt
  }

  predicate Expired(row: Row, w: Window) {
    row.status in w.statuses && FinishedAt(row) < w.cutoff && NotRetriedSince(row, w.cutoff)
  }

  /** In columns: finished, or if that is missing created, before the cutoff, with one of
      these statuses, and not claimed for a retry at or after the cutoff. */
  predicate IsIdle(row: Row, statuses: set<Status>, cutoff: int) {
    && row.status in statuses
    && (row.completedAt.Some? ==> row.completedAt.value < cutoff)
    && (row.completedAt.None? ==> row.createdAt < cutoff)
    && (row.retryAt.Some? ==> row.retryAt.value < cutoff)
  }

  lemma ExpiredIsIdle(row: Row, w: Window)
    ensures Expired(row, w) <==> IsIdle(row, w.statuses, w.cutoff)
  {
  }

  function Without(rows: Rows, gone: set<nat>): Rows {
    map id | id in rows && id !in gone :: rows[id]
  }

  function Deletable(rows: Rows, ids: set<nat>, scope: Scope, since: int): set<nat> {
    set id | id in rows && id in ids && Visible(rows[id], scope) && NotRetriedSince(rows[id], since)
  }

  function ExpiredIds(rows: Rows, w: Window): set<nat> {
    set id | id in rows && Expired(rows[id], w)
  }

  predicate CanClaim(row: Row, expectedMarker: string, expectedStatus: Option<Status>) {
    row.marker == expectedMarker && (expectedStatus.Some? ==> row.status == expectedStatus.value)
  }

  function Claimed(row: Row, token: string, at: int): Row {
    row.(marker := token, retryAt := Some(at))
  }

  const SWEEP_BATCH: nat := 1000
  const SWEEP_MAX_BATCHES: nat := 20

  /** What other requests did to the table before the n-th DELETE of a sweep. */
  type Interference = (nat, Rows) -> Rows

  ghost predicate Undisturbed(others: Interference) {
    forall n, t :: others(n, t) == t
  }

  /** One DELETE of a sweep: the table it found, the ids it removed, and its window. */
  datatype Deletion = Deletion(before: Rows, gone: set<nat>, window: Window)

  /** The table as the last DELETE of a log left it. */
  function TableAfter(start: Rows, log: seq<Deletion>): Rows {
    if log == [] then start else Without(log[|log| - 1].before, log[|log| - 1].gone)
  }

  /** The log accounts for everything that happens to the table: between its DELETEs only
      others change it, and each DELETE takes out some rows that are expired then and
      nothing else. */
  predicate Accounts(start: Rows, log: seq<Deletion>, others: Interference) {
    log == [] ||
    (var n := |log| - 1;
     && log[n].before == others(n, TableAfter(start, log[..n]))
     && log[n].gone <= ExpiredIds(log[n].before, log[n].window)
     && Accounts(start, log[..n], others))
  }

  function Removed(log: seq<Deletion>): nat {
    if log == [] then 0 else Removed(log[..|log| - 1]) + |log[|log| - 1].gone|
  }

  /** How many rows the DELETEs of one window took out. */
  function RemovedUnder(log: seq<Deletion>, w: Window): nat {
    if log == [] then 0
    else
      var d := log[|log| - 1];
      RemovedUnder(log[..|log| - 1], w) + if d.window == w then |d.gone| else 0
  }

  lemma {:induction false} RemovedExtended(before: seq<Deletion>, after: seq<Deletion>, w: Window, v: Window)
    requires ExtendedBy(before, after, w)
    ensures RemovedUnder(after, v) == RemovedUnder(before, v) + if v == w then Removed(after) - Removed(before) else 0
  {
    if |before| < |after| {
      RemovedExtended(before, after[..|after| - 1], w, v);
    } else {
      assert before == after;
    }
  }

  lemma {:induction false} GoneGrows(before: seq<Deletion>, after: seq<Deletion>)
    requires before <= after
    ensures GoneIds(before) <= GoneIds(after)
  {
    if |before| < |after| {
      GoneGrows(before, after[..|after| - 1]);
    } else {
      assert before == after;
    }
  }

  /** Rows that had not expired when the log was shorter are not expired later on. */
  lemma NothingExpiresLater(start: Rows, before: seq<Deletion>, after: seq<Deletion>, others: Interference, w: Window)
    requires Accounts(start, before, others) && Accounts(start, after, others) && Undisturbed(others)
    requires before <= after && ExpiredIds(TableAfter(start, before), w) == {}
    ensures ExpiredIds(TableAfter(start, after), w) == {}
  {
    UndisturbedSweep(start, before, others);
    UndisturbedSweep(start, after, others);
    GoneGrows(before, after);
    forall id | id in TableAfter(start, after) ensures id !in ExpiredIds(TableAfter(start, after), w) {
      assert id !in ExpiredIds(TableAfter(start, before), w);
    }
  }

  /** A window's share of a sweep: all its rows, or as many as one sweep may take. */
  predicate Swept(rows: Rows, log: seq<Deletion>, w: Window) {
    ExpiredIds(rows, w) == {} || RemovedUnder(log, w) == SWEEP_BATCH * SWEEP_MAX_BATCHES
  }

  /** Every id a sweep took out, in any of its DELETEs. */
  function GoneIds(log: seq<Deletion>): set<nat> {
    if log == [] then {} else GoneIds(log[..|log| - 1]) + log[|log| - 1].gone
  }

  lemma LogOneMore(start: Rows, log: seq<Deletion>, others: Interference, d: Deletion)
    requires Accounts(start, log, others)
    requires d.before == others(|log|, TableAfter(start, log)) && d.gone <= ExpiredIds(d.before, d.window)
    ensures Accounts(start, log + [d], others)
    ensures TableAfter(start, log + [d]) == Without(d.before, d.gone)
    ensures Removed(log + [d]) == Removed(log) + |d.gone|
  {
    assert (log + [d])[..|log|] == log;
  }

  lemma {:induction false} AccountsEach(start: Rows, log: seq<Deletion>, others: Interference, k: nat)
    requires Accounts(start, log, others) && k < |log|
    ensures log[k].before == others(k, TableAfter(start, log[..k]))
    ensures log[k].gone <= ExpiredIds(log[k].before, log[k].window)
  {
    var n := |log| - 1;
    if k < n {
      AccountsEach(start, log[..n], others, k);
      assert log[..n][..k] == log[..k];
    }
  }

  /** Whoever else is at work: a row that is there for a DELETE and is not expired then,
      because it was refreshed or claimed at or after the cutoff, is there afterwards,
      unchanged. */
  lemma SweepSparesFresh(start: Rows, log: seq<Deletion>, others: Interference, k: nat, id: nat)
    requires Accounts(start, log, others) && k < |log|
    requires id in log[k].before && !IsIdle(log[k].before[id], log[k].window.statuses, log[k].window.cutoff)
    ensures id in TableAfter(start, log[..k + 1]) && TableAfter(start, log[..k + 1])[id] == log[k].before[id]
  {
    AccountsEach(start, log, others, k);
    ExpiredIsIdle(log[k].before[id], log[k].window);
    assert id !in ExpiredIds(log[k].before, log[k].window);
  }

  ghost predicate ExpiredUnderSome(row: Row, log: seq<Deletion>) {
    exists k :: 0 <= k < |log| && Expired(row, log[k].window)
  }

  /** With nobody else at work, a sweep leaves the old table without some rows that had
      expired in it. */
  lemma {:induction false} UndisturbedSweep(start: Rows, log: seq<Deletion>, others: Interference)
    requires Accounts(start, log, others) && Undisturbed(others)
    ensures TableAfter(start, log) == Without(start, GoneIds(log))
    ensures forall id :: id in GoneIds(log) ==> id in start && ExpiredUnderSome(start[id], log)
  {
    if log == [] {
      assert Without(start, {}) == start;
    } else {
      var n := |log| - 1;
      UndisturbedSweep(start, log[..n], others);
      var before := Without(start, GoneIds(log[..n]));
      assert log[n].before == before;
      forall id | id in GoneIds(log) ensures id in start && ExpiredUnderSome(start[id], log) {
        if id in GoneIds(log[..n]) {
          var k :| 0 <= k < n && Expired(start[id], log[..n][k].window);
          assert Expired(start[id], log[k].window);
        } else {
          assert id in ExpiredIds(before, log[n].window);
        }
      }
      WithoutTwice(start, GoneIds(log[..n]), log[n].gone);
    }
  }

  lemma WithoutTwice(rows: Rows, a: set<nat>, b: set<nat>)
    ensures Without(Without(rows, a), b) == Without(rows, a + b)
  {
  }

  class HistoryStore {
    var rows: Rows
    var nextId: nat

    /** The unique index on job_id, and ids handed out once. */
    ghost predicate Valid()
      reads this
    {
      && (forall id :: id in rows ==> id < nextId)
      && (forall a, b :: a in rows && b in rows && rows[a].jobId == rows[b].jobId ==> a == b)
    }

    constructor ()
      ensures Valid() && rows == map[]
    {
      rows, nextId := map[], 1;
    }

    method RecordTerminalDownload(rec: Attempt) returns (r: Result<nat, HistoryError>)
      requires Valid()
      modifies this
      ensures Valid()
      ensures r.Err? <==> rec.jobId == ""
      ensures r.Err? ==> rows == old(rows)
      ensures r.Ok? ==>
        && r.value in rows && rows[r.value].jobId == rec.jobId
        && (r.value in old(rows) ==> old(rows)[r.value].jobId == rec.jobId)
        && (r.value !in old(rows) ==> forall id :: id in old(rows) ==> old(rows)[id].jobId != rec.jobId)
        && (forall id :: id in old(rows) && id != r.value ==> id in rows && rows[id] == old(rows)[id])
        && (forall id :: id in rows && id != r.value ==> id in old(rows))
      ensures r.Ok? && r.value !in old(rows) ==>
        rows[r.value] == Row(rec.jobId, rec.status, rec.completedAt, rec.createdAt, rec.owner, rec.data, 1, "", None)
      ensures r.Ok? && r.value in old(rows) ==>
        var was := old(rows)[r.value];
        rows[r.value] ==
          if was.completedAt.Some? && rec.completedAt.Some? && rec.completedAt.value < was.completedAt.value then was
          else was.(status := rec.status, completedAt := rec.completedAt, data := rec.data,
                    attempts := was.attempts + 1)
    {
      if rec.jobId == "" {
        return Err(NoJobId);
      }
      if id :| id in rows && rows[id].jobId == rec.jobId {
        rows := rows[id := Upserted(Some(rows[id]), rec)];
        return Ok(id);
      }
      rows := rows[nextId := Inserted(rec)];
      nextId := nextId + 1;
      r := Ok(nextId - 1);
    }

    /** The compare-and-set on the retry marker. A winner read the row as it still was, and
        changes its marker and retry instant alone; a loser changes nothing. */
    method ClaimDownloadHistoryRetry(id: nat, expectedMarker: string, expectedStatus: Option<Status>,
      token: string, at: int) returns (won: bool)
      requires Valid()
      modifies this`rows
      ensures Valid()
      ensures won <==>
        && id in old(rows) && old(rows)[id].marker == expectedMarker
        && expectedStatus in {None, Some(old(rows)[id].status)}
      ensures won ==>
        && id in rows && rows[id].marker == token && rows[id].retryAt == Some(at)
        && SameOutcome(rows[id], old(rows)[id])
      ensures rows.Keys == old(rows).Keys
      ensures forall other :: other in rows && (other != id || !won) ==> rows[other] == old(rows)[other]
    {
      won := id in rows && CanClaim(rows[id], expectedMarker, expectedStatus);
      if won {
        rows := rows[id := Claimed(rows[id], token, at)];
      }
    }

    method MarkDownloadHistoryRetried(id: nat, jobId: string, at: int)
      requires Valid()
      modifies this`rows
      ensures Valid() && rows.Keys == old(rows).Keys
      ensures id in rows ==>
        rows[id].marker == jobId && rows[id].retryAt == Some(at) && SameOutcome(rows[id], old(rows)[id])
      ensures forall other :: other in rows && other != id ==> rows[other] == old(rows)[other]
    {
      if id in rows {
        rows := rows[id := Claimed(rows[id], jobId, at)];
      }
    }

    /** A retry decided from `entry`, a copy of the row read earlier. While the queue still
        holds the row's job it is retried in place, if the queue agrees; otherwise claim the
        slot, submit, and record the new job, or hand the slot back when the queue refuses. */
    method RetryDownload(id: nat, entry: Row, inQueue: Option<bool>, token: string, submitted: Option<string>, at: int)
      returns (jobId: Option<string>)
      requires Valid()
      modifies this`rows
      ensures Valid() && rows.Keys == old(rows).Keys
      ensures inQueue.Some? ==> jobId == if inQueue.value then Some(entry.jobId) else None
      ensures inQueue.None? ==>
        && (jobId.Some? ==> jobId == submitted)
        && (jobId.Some? <==>
              && submitted.Some? && id in old(rows)
              && old(rows)[id].marker == entry.marker && old(rows)[id].status == entry.status)
      ensures jobId.Some? && id in rows ==> rows[id].marker == jobId.value && rows[id].retryAt == Some(at)
      ensures jobId.None? && id in rows ==> rows[id].marker == old(rows)[id].marker
      ensures id in rows ==> SameOutcome(rows[id], old(rows)[id])
      ensures forall other :: other in rows && other != id ==> rows[other] == old(rows)[other]
    {
      jobId := RetryOrResubmit(id, entry, inQueue, token, submitted, at);
      if jobId.Some? {
        MarkDownloadHistoryRetried(id, jobId.value, at);
      }
    }

    method RetryOrResubmit(id: nat, entry: Row, inQueue: Option<bool>, token: string, submitted: Option<string>,
      at: int) returns (jobId: Option<string>)
      requires Valid()
      modifies this`rows
      ensures Valid() && rows.Keys == old(rows).Keys
      ensures inQueue.Some? ==> rows == old(rows) && jobId == if inQueue.value then Some(entry.jobId) else None
      ensures inQueue.None? ==>
        && (jobId.Some? ==> jobId == submitted && id in rows && rows[id].marker == token)
        && (jobId.Some? <==>
              && submitted.Some? && id in old(rows)
              && old(rows)[id].marker == entry.marker && old(rows)[id].status == entry.status)
      ensures jobId.None? && id in rows ==> rows[id].marker == old(rows)[id].marker
      ensures id in rows ==> SameOutcome(rows[id], old(rows)[id])
      ensures forall other :: other in rows && other != id ==> rows[other] == old(rows)[other]
    {
      if inQueue.Some? {
        return if inQueue.value then Some(entry.jobId) else None;
      }
      var won := ClaimDownloadHistoryRetry(id, entry.marker, Some(entry.status), token, at);
      if !won {
        return None;
      }
      if submitted.None? {
        var handedBack := ClaimDownloadHistoryRetry(id, token, None, entry.marker, at);
        return None;
      }
      jobId := submitted;
    }

    /** Removes a row exactly when it is named, the caller may see it, and its retry slot
        has not been claimed at or after the given instant. */
    method DeleteDownloadHistoryEntries(ids: set<nat>, scope: Scope, notRetriedSince: int) returns (gone: nat)
      requires Valid()
      modifies this`rows
      ensures Valid()
      ensures forall id :: id in rows ==> id in old(rows) && rows[id] == old(rows)[id]
      ensures forall id :: id in old(rows) ==>
        (id !in rows <==>
          && id in ids
          && (scope.Unrestricted? || (scope.user.Some? && old(rows)[id].owner == scope.user))
          && (old(rows)[id].retryAt.Some? ==> old(rows)[id].retryAt.value < notRetriedSince))
      ensures gone == |old(rows)| - |rows|
    {
      var deletable := Deletable(rows, ids, scope, notRetriedSince);
      SizeWithout(rows, deletable);
      rows := Without(rows, deletable);
      gone := |deletable|;
    }

    /** At most one batch of the expired ids. */
    method SelectExpired(w: Window) returns (ids: set<nat>)
      ensures ids <= ExpiredIds(rows, w)
      ensures if |ExpiredIds(rows, w)| <= SWEEP_BATCH then ids == ExpiredIds(rows, w) else |ids| == SWEEP_BATCH
    {
      ids := ExpiredIds(rows, w);
      while |ids| > SWEEP_BATCH
        invariant ids <= ExpiredIds(rows, w)
        invariant |ExpiredIds(rows, w)| <= SWEEP_BATCH ==> ids == ExpiredIds(rows, w)
        invariant |ExpiredIds(rows, w)| > SWEEP_BATCH ==> |ids| >= SWEEP_BATCH
        decreases |ids|
      {
        var id :| id in ids;
        ids := ids - {id};
      }
    }

    /** One batch: the ids are selected, anything at all happens to the table, and then the
        predicates are asked again of the rows as they are. `log0` is the sweep so far. */
    method SweepBatch(w: Window, others: Interference, calls: nat, ghost start: Rows, ghost log0: seq<Deletion>)
      returns (selected: nat, gone: nat, ghost log: seq<Deletion>)
      requires Accounts(start, log0, others) && rows == TableAfter(start, log0) && calls == |log0|
      modifies this`rows
      ensures Accounts(start, log, others) && rows == TableAfter(start, log)
      ensures ExtendedBy(log0, log, w) && |log| == |log0| + if selected == 0 then 0 else 1
      ensures gone == Removed(log) - Removed(log0) <= selected <= SWEEP_BATCH
      ensures Undisturbed(others) ==> gone == selected && (selected < SWEEP_BATCH ==> ExpiredIds(rows, w) == {})
    {
      var ids := SelectExpired(w);
      selected, gone, log := |ids|, 0, log0;
      if |ids| == 0 {
        return;
      }
      rows := others(calls, rows);
      var doomed := ids * ExpiredIds(rows, w);
      ghost var d := Deletion(rows, doomed, w);
      rows := Without(rows, doomed);
      gone := |doomed|;
      LogOneMore(start, log0, others, d);
      log := log0 + [d];
      AtMost(ids, ExpiredIds(d.before, w));
      if Undisturbed(others) {
        assert d.before == old(rows) && doomed == ids;
      }
    }

    /** One window of a sweep: batches until a short one or the cap. */
    method SweepWindow(w: Window, others: Interference, calls: nat, ghost start: Rows, ghost log0: seq<Deletion>)
      returns (total: nat, made: nat, ghost log: seq<Deletion>)
      requires Accounts(start, log0, others) && rows == TableAfter(start, log0) && calls == |log0|
      modifies this`rows
      ensures Accounts(start, log, others) && rows == TableAfter(start, log) && made == |log|
      ensures ExtendedBy(log0, log, w) && |log| <= |log0| + SWEEP_MAX_BATCHES
      ensures total == Removed(log) - Removed(log0) <= SWEEP_BATCH * SWEEP_MAX_BATCHES
      ensures Undisturbed(others) ==> total == SWEEP_BATCH * SWEEP_MAX_BATCHES || ExpiredIds(rows, w) == {}
    {
      total, made, log := 0, calls, log0;
      for batch := 0 to SWEEP_MAX_BATCHES
        invariant Accounts(start, log, others) && rows == TableAfter(start, log) && made == |log|
        invariant ExtendedBy(log0, log, w) && |log| <= |log0| + batch
        invariant total == Removed(log) - Removed(log0) <= SWEEP_BATCH * batch
        invariant Undisturbed(others) ==> total == SWEEP_BATCH * batch
      {
        var selected, gone;
        selected, gone, log := SweepBatch(w, others, made, start, log);
        made := if selected == 0 then made else made + 1;
        total := total + gone;
        if selected < SWEEP_BATCH {
          break;
        }
      }
    }

    /** The whole sweep: failed and cancelled rows under one retention, then completed ones
        under the other, at most 20 DELETEs of 1000 rows each. Its log accounts for the
        table: every row it removed had, at that moment, finished before its cutoff and not
        been claimed since it, whatever ran in between. */
    method SweepDownloadHistory(now: int, failedRetention: int, completedRetention: int, others: Interference)
      returns (total: nat, ghost log: seq<Deletion>)
      modifies this`rows
      ensures Accounts(old(rows), log, others) && rows == TableAfter(old(rows), log)
      ensures forall k, id :: 0 <= k < |log| && id in log[k].gone ==>
        id in log[k].before && EitherIdle(log[k].before[id], now, failedRetention, completedRetention)
      ensures total == Removed(log) <= 40_000 && |log| <= 40
      ensures Undisturbed(others) ==> rows == Without(old(rows), GoneIds(log))
      ensures Undisturbed(others) ==> forall id :: id in old(rows) && id !in rows ==>
        EitherIdle(old(rows)[id], now, failedRetention, completedRetention)
      ensures Undisturbed(others) ==>
        || RemovedUnder(log, Window({Failed, Cancelled}, now - failedRetention)) == 20_000
        || forall id :: id in rows ==> !IsIdle(rows[id], {Failed, Cancelled}, now - failedRetention)
      ensures Undisturbed(others) ==>
        || RemovedUnder(log, Window({Completed}, now - completedRetention)) == 20_000
        || forall id :: id in rows ==> !IsIdle(rows[id], {Completed}, now - completedRetention)
    {
      ghost var start := rows;
      var failed, completed := FailedWindow(now, failedRetention), CompletedWindow(now, completedRetention);
      var first, made, second, last;
      ghost var log1;
      first, made, log1 := SweepWindow(failed, others, 0, start, []);
      second, last, log := SweepWindow(completed, others, made, start, log1);
      total := first + second;
      EachIsIdle(start, log, others, now, failedRetention, completedRetention);
      if Undisturbed(others) {
        UndisturbedSweep(start, log, others);
        BothSwept(start, log1, log, others, failed, completed, first, second);
        GoneAreIdle(start, log, now, failedRetention, completedRetention);
        SweptLeavesNoneIdle(rows, log, failed);
        SweptLeavesNoneIdle(rows, log, completed);
      }
    }
  }

  /** What a sweep may remove. */
  predicate EitherIdle(row: Row, now: int, failedRetention: int, completedRetention: int) {
    IsIdle(row, {Failed, Cancelled}, now - failedRetention) || IsIdle(row, {Completed}, now - completedRetention)
  }

  ghost predicate HasSweepWindows(log: seq<Deletion>, now: int, failedRetention: int, completedRetention: int) {
    forall k :: 0 <= k < |log| ==>
      log[k].window in {FailedWindow(now, failedRetention), CompletedWindow(now, completedRetention)}
  }

  lemma EachIsIdle(start: Rows, log: seq<Deletion>, others: Interference, now: int, failedRetention: int,
    completedRetention: int)
    requires Accounts(start, log, others) && HasSweepWindows(log, now, failedRetention, completedRetention)
    ensures forall k, id :: 0 <= k < |log| && id in log[k].gone ==>
      id in log[k].before && EitherIdle(log[k].before[id], now, failedRetention, completedRetention)
  {
    forall k, id | 0 <= k < |log| && id in log[k].gone
      ensures id in log[k].before && EitherIdle(log[k].before[id], now, failedRetention, completedRetention)
    {
      AccountsEach(start, log, others, k);
      assert id in ExpiredIds(log[k].before, log[k].window);
      ExpiredIsIdle(log[k].before[id], log[k].window);
    }
  }

  lemma GoneAreIdle(start: Rows, log: seq<Deletion>, now: int, failedRetention: int, completedRetention: int)
    requires HasSweepWindows(log, now, failedRetention, completedRetention)
    requires forall id :: id in GoneIds(log) ==> id in start && ExpiredUnderSome(start[id], log)
    ensures forall id :: id in GoneIds(log) ==>
      EitherIdle(start[id], now, failedRetention, completedRetention)
  {
    forall id | id in GoneIds(log) ensures EitherIdle(start[id], now, failedRetention, completedRetention) {
      var k :| 0 <= k < |log| && Expired(start[id], log[k].window);
      ExpiredIsIdle(start[id], log[k].window);
    }
  }

  lemma SweptLeavesNoneIdle(rows: Rows, log: seq<Deletion>, w: Window)
    requires Swept(rows, log, w)
    ensures RemovedUnder(log, w) == 20_000 || forall id :: id in rows ==> !IsIdle(rows[id], w.statuses, w.cutoff)
  {
    if ExpiredIds(rows, w) == {} {
      forall id | id in rows ensures !IsIdle(rows[id], w.statuses, w.cutoff) {
        assert id !in ExpiredIds(rows, w);
        ExpiredIsIdle(rows[id], w);
      }
    }
  }

  lemma BothSwept(start: Rows, log1: seq<Deletion>, log: seq<Deletion>, others: Interference,
    failed: Window, completed: Window, first: nat, second: nat)
    requires Undisturbed(others) && Accounts(start, log1, others) && Accounts(start, log, others)
    requires failed != completed && ExtendedBy([], log1, failed) && ExtendedBy(log1, log, completed)
    requires first == Removed(log1) && second == Removed(log) - Removed(log1)
    requires first == SWEEP_BATCH * SWEEP_MAX_BATCHES || ExpiredIds(TableAfter(start, log1), failed) == {}
    requires second == SWEEP_BATCH * SWEEP_MAX_BATCHES || ExpiredIds(TableAfter(start, log), completed) == {}
    ensures Swept(TableAfter(start, log), log, failed) && Swept(TableAfter(start, log), log, completed)
  {
    RemovedExtended([], log1, failed, failed);
    RemovedExtended([], log1, failed, completed);
    RemovedExtended(log1, log, completed, failed);
    RemovedExtended(log1, log, completed, completed);
    if ExpiredIds(TableAfter(start, log1), failed) == {} {
      NothingExpiresLater(start, log1, log, others, failed);
    }
  }

  /** The log with more DELETEs, all of this window. */
  ghost predicate ExtendedBy(before: seq<Deletion>, after: seq<Deletion>, w: Window) {
    before <= after && forall k :: |before| <= k < |after| ==> after[k].window == w
  }

  /** Nothing but the retry marker and its instant differs. */
  predicate SameOutcome(a: Row, b: Row) {
    a == b.(marker := a.marker, retryAt := a.retryAt)
  }

  function FailedWindow(now: int, retention: int): Window {
    Window({Failed, Cancelled}, now - retention)
  }

  function CompletedWindow(now: int, retention: int): Window {
    Window({Completed}, now - retention)
  }

  lemma SizeWithout(rows: Rows, gone: set<nat>)
    requires gone <= rows.Keys
    ensures |Without(rows, gone)| == |rows| - |gone|
  {
    assert Without(rows, gone).Keys == rows.Keys - gone;
    assert rows.Keys == (rows.Keys - gone) + gone;
  }

  lemma AtMost(a: set<nat>, b: set<nat>)
    ensures |a * b| <= |a|
  {
    assert a == (a * b) + (a - b);
  }

  // ---- deletes ----

  /** A delete removes exactly the named rows the caller may see whose retry slot has not
      been claimed since; so never one claimed at or after that instant. */
  lemma DeleteSparesClaimed(rows: Rows, ids: set<nat>, scope: Scope, since: int, id: nat)
    requires id in rows && rows[id].retryAt.Some? && rows[id].retryAt.value >= since
    ensures id in Without(rows, Deletable(rows, ids, scope, since))
  {
  }

  predicate RefreshedSince(row: Row, since: int) {
    row.completedAt.Some? && row.completedAt.value >= since
  }

  /** It does not look at completion times. A row that an in-place retry has just turned
      into a fresh outcome goes all the same. */
  lemma DeleteCanLoseRefreshed(id: nat, row: Row, since: int)
    requires RefreshedSince(row, since) && row.retryAt.None?
    ensures id !in Without(map[id := row], Deletable(map[id := row], {id}, Unrestricted, since))
  {
  }

  /** Refreshed rows all survive a delete exactly when each one it names, and the caller
      may see, has also been claimed since. */
  lemma DeleteSparesRefreshedIff(rows: Rows, ids: set<nat>, scope: Scope, since: int)
    ensures (forall id :: id in rows && RefreshedSince(rows[id], since) ==>
               id in Without(rows, Deletable(rows, ids, scope, since)))
      <==> (forall id :: id in rows && id in ids && Visible(rows[id], scope) && RefreshedSince(rows[id], since) ==>
              !NotRetriedSince(rows[id], since))
  {
    var left, gone := Without(rows, Deletable(rows, ids, scope, since)), Deletable(rows, ids, scope, since);
    assert forall id :: id in rows ==> (id in left <==> id !in gone);
  }

  // ---- claims over a run ----

  /** Everything that happens to one row's retry marker. A hand-back is a claim that puts
      an earlier marker back after the submit failed; a mark records the job that now runs
      the download, new or, retried in place, the row's own. */
  datatype Step =
    | Claim(expected: string, status: Option<Status>, token: string, at: int)
    | HandBack(token: string, original: string, at: int)
    | Mark(jobId: string, at: int)
    | Record(rec: Attempt)

  function Apply(row: Row, step: Step): Row {
    match step
    case Claim(expected, status, token, at) => if CanClaim(row, expected, status) then Claimed(row, token, at) else row
    case HandBack(token, original, at) => if CanClaim(row, token, None) then Claimed(row, original, at) else row
    case Mark(jobId, at) => Claimed(row, jobId, at)
    case Record(rec) => Upserted(Some(row), rec)
  }

  function After(row: Row, steps: seq<Step>): Row {
    if steps == [] then row else Apply(After(row, steps[..|steps| - 1]), steps[|steps| - 1])
  }

  predicate Wins(row: Row, steps: seq<Step>, i: nat, expected: string)
    requires i < |steps|
  {
    && steps[i].Claim? && steps[i].expected == expected
    && CanClaim(After(row, steps[..i]), expected, steps[i].status)
  }

  /** The marker on the row after the first n steps. */
  function MarkerAt(row: Row, steps: seq<Step>, n: nat): string
    requires n <= |steps|
  {
    After(row, steps[..n]).marker
  }

  /** The step leaves this marker on the row, where it was not before. */
  predicate Restores(row: Row, steps: seq<Step>, k: nat, marker: string)
    requires k < |steps|
  {
    MarkerAt(row, steps, k) != marker && MarkerAt(row, steps, k + 1) == marker
  }

  lemma AfterNext(row: Row, steps: seq<Step>, i: nat)
    requires i < |steps|
    ensures After(row, steps[..i + 1]) == Apply(After(row, steps[..i]), steps[i])
  {
    assert steps[..i + 1][..i] == steps[..i];
  }

  /** The marker is on the row from then until the j-th step. */
  ghost predicate StaysUntil(row: Row, steps: seq<Step>, k: nat, j: nat, marker: string)
    requires j <= |steps|
  {
    forall n :: k <= n <= j ==> MarkerAt(row, steps, n) == marker
  }

  lemma {:induction false} LastRestored(row: Row, steps: seq<Step>, i: nat, j: nat, marker: string) returns (k: nat)
    requires i < j <= |steps|
    requires MarkerAt(row, steps, i) != marker && MarkerAt(row, steps, j) == marker
    ensures i <= k < j && Restores(row, steps, k, marker) && StaysUntil(row, steps, k + 1, j, marker)
    decreases j - i
  {
    if MarkerAt(row, steps, j - 1) == marker {
      k := LastRestored(row, steps, i, j - 1, marker);
    } else {
      k := j - 1;
    }
  }

  /** After a winner, a second claim that read the same marker wins exactly when the marker
      has been put back between the two and nothing has replaced it since, and the row
      still has the status the claim expects. */
  lemma SecondWinnerIff(row: Row, steps: seq<Step>, i: nat, j: nat, expected: string)
    requires i < j < |steps| && Wins(row, steps, i, expected) && steps[i].token != expected
    requires steps[j].Claim? && steps[j].expected == expected
    ensures Wins(row, steps, j, expected) <==>
      && steps[j].status in {None, Some(After(row, steps[..j]).status)}
      && exists k :: i < k < j && Restores(row, steps, k, expected) && StaysUntil(row, steps, k + 1, j, expected)
  {
    AfterNext(row, steps, i);
    if MarkerAt(row, steps, j) == expected {
      var k := LastRestored(row, steps, i + 1, j, expected);
    }
  }

  /** The two steps that can put a marker back: the hand-back of a submit that failed, and
      the mark of a job id, which is the row's own when the queue still holds its job and
      retries it in place. */
  predicate PutsBack(step: Step, marker: string) {
    match step
    case HandBack(_, original, _) => original == marker
    case Mark(jobId, _) => jobId == marker
    case _ => false
  }

  /** With claim tokens that are never an earlier marker nothing else does, and a hand-back
      does it only for the claim it belongs to. */
  lemma OnlyPutBacksRestore(row: Row, steps: seq<Step>, k: nat, marker: string)
    requires k < |steps| && Restores(row, steps, k, marker)
    requires steps[k].Claim? ==> steps[k].token != marker
    ensures PutsBack(steps[k], marker)
    ensures steps[k].HandBack? ==> MarkerAt(row, steps, k) == steps[k].token
  {
    AfterNext(row, steps, k);
  }

  /** While nothing puts the marker back, at most one claim wins of all requests that read it. */
  lemma OneWinnerPerMarker(row: Row, steps: seq<Step>, i: nat, j: nat, expected: string)
    requires i < |steps| && j < |steps| && Wins(row, steps, i, expected) && Wins(row, steps, j, expected)
    requires forall n :: 0 <= n < |steps| ==>
      (steps[n].Claim? ==> steps[n].token != expected) && !PutsBack(steps[n], expected)
    ensures i == j
  {
    if i != j {
      var a, b := if i < j then i else j, if i < j then j else i;
      SecondWinnerIff(row, steps, a, b, expected);
      var k :| a < k < b && Restores(row, steps, k, expected);
      OnlyPutBacksRestore(row, steps, k, expected);
    }
  }

  /** Two requests that read one marker, and one step between their claims. */
  function ClaimTwice(row: Row, token: string, between: Step, other: string, at: int): seq<Step> {
    [Claim(row.marker, Some(row.status), token, at), between, Claim(row.marker, Some(row.status), other, at)]
  }

  lemma BothWin(row: Row, token: string, between: Step, other: string, at: int)
    requires Apply(Claimed(row, token, at), between) == Claimed(row, row.marker, at)
    ensures var steps := ClaimTwice(row, token, between, other, at);
      Wins(row, steps, 0, row.marker) && Wins(row, steps, 2, row.marker)
  {
    var steps := ClaimTwice(row, token, between, other, at);
    assert steps[..0] == [];
    AfterNext(row, steps, 0);
    AfterNext(row, steps, 1);
  }

  /** An input on which both win: the first one's submit fails, and it hands the slot back
      before the second one claims. */
  lemma TwoWinners(row: Row, token: string, other: string, at: int)
    ensures var steps := ClaimTwice(row, token, HandBack(token, row.marker, at), other, at);
      Wins(row, steps, 0, row.marker) && Wins(row, steps, 2, row.marker)
  {
    BothWin(row, token, HandBack(token, row.marker, at), other, at);
  }

  /** Another, without any hand-back: the row had been retried in place before, so its marker
      is its own job id, and a slow in-place retry marks it so again between the claims. */
  lemma TwoWinnersInPlace(row: Row, token: string, other: string, at: int)
    requires row.marker == row.jobId
    ensures var steps := ClaimTwice(row, token, Mark(row.jobId, at), other, at);
      Wins(row, steps, 0, row.marker) && Wins(row, steps, 2, row.marker)
  {
    BothWin(row, token, Mark(row.jobId, at), other, at);
  }

  /** A hand-back only ever undoes its own claim: it changes nothing once another token or
      a job id is on the row. */
  lemma HandBackIsOwn(row: Row, token: string, original: string, at: int)
    ensures Apply(row, HandBack(token, original, at)) == row ||
      (row.marker == token && Apply(row, HandBack(token, original, at)).marker == original)
  {
  }
}
