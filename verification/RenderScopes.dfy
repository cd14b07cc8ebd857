/** Parent and root scopes of groups: the one-at-a-time walks of
    application_context/mrql_context.go and the cached batch loader of
    application_context/mrql_render_data.go. */
module RenderScopes {
  import opened Outcomes
  import opened IdLists
  import opened OwnershipChains
  import opened Sequences

  /** mrql.UnresolvedScopeSentinel, the largest signed machine integer. */
  const SENTINEL: nat := 0x7fff_ffff_ffff_ffff
  const DEPTH_LIMIT: nat := 50

  datatype Scope = Scope(parent: nat, root: nat)

  datatype AncestryRow = AncestryRow(start: nat, id: nat, owner: Option<nat>, depth: nat)

  /** The owner a walk can follow; a stored zero counts as none. */
  function UsableOwner(m: Owners, g: nat): Option<nat> {
    if g in m && m[g].Some? && m[g].value != 0 then m[g] else None
  }

  // ---- the one-at-a-time walks ----

  function ParentScope(m: Owners, g: nat): nat {
    if g == 0 || UsableOwner(m, g).None? then SENTINEL else UsableOwner(m, g).value
  }

  /** Where a walk of at most n steps up from g comes to rest. */
  function RestsAt(m: Owners, g: nat, n: nat): nat
    decreases n
  {
    if n == 0 || UsableOwner(m, g).None? then g else RestsAt(m, UsableOwner(m, g).value, n - 1)
  }

  method ResolveRootScopeID(m: Owners, groupId: nat) returns (root: nat)
    ensures root == if groupId == 0 then SENTINEL else RestsAt(m, groupId, DEPTH_LIMIT)
  {
    if groupId == 0 {
      return SENTINEL;
    }
    var current := groupId;
    for i := 0 to DEPTH_LIMIT
      invariant RestsAt(m, current, DEPTH_LIMIT - i) == RestsAt(m, groupId, DEPTH_LIMIT)
    {
      var owner := UsableOwner(m, current);
      if owner.None? {
        return current;
      }
      current := owner.value;
    }
    root := current;
  }

  // ---- the batch query ----

  /** The rows the recursive query yields for one start, nearest first. */
  function Ancestry(m: Owners, start: nat, id: nat, depth: nat): seq<AncestryRow>
    requires depth <= DEPTH_LIMIT
    decreases DEPTH_LIMIT - depth, |m|
  {
    if id !in m then []
    else
      var above := if depth < DEPTH_LIMIT && m[id].Some? then Ancestry(m, start, m[id].value, depth + 1) else [];
      [AncestryRow(start, id, m[id], depth)] + above
  }

  /** All rows, ordered by start and depth. */
  function AllAncestry(m: Owners, starts: seq<nat>): seq<AncestryRow> {
    if starts == [] then []
    else
      var n := |starts| - 1;
      AllAncestry(m, starts[..n]) + Ancestry(m, starts[n], starts[n], 0)
  }

  /** One row overwrites the scope gathered so far for its start. */
  function ApplyRow(scopes: map<nat, Scope>, row: AncestryRow): map<nat, Scope> {
    var scope := if row.start in scopes then scopes[row.start] else Scope(0, 0);
    var parent := if row.depth == 0 && row.owner.Some? && row.owner.value > 0 then row.owner.value else scope.parent;
    scopes[row.start := Scope(parent, row.id)]
  }

  function ApplyRows(scopes: map<nat, Scope>, rows: seq<AncestryRow>): map<nat, Scope> {
    if rows == [] then scopes else ApplyRow(ApplyRows(scopes, rows[..|rows| - 1]), rows[|rows| - 1])
  }

  /** The scope the batch loader stores for a group. */
  function BatchScope(m: Owners, id: nat): Scope {
    var rows := Ancestry(m, id, id, 0);
    if rows == [] then Scope(SENTINEL, SENTINEL)
    else Scope(if m[id].Some? && m[id].value > 0 then m[id].value else SENTINEL, rows[|rows| - 1].id)
  }

  lemma {:induction false} ApplyRowsConcat(scopes: map<nat, Scope>, a: seq<AncestryRow>, b: seq<AncestryRow>)
    ensures ApplyRows(scopes, a + b) == ApplyRows(ApplyRows(scopes, a), b)
  {
    if b == [] {
      assert a + b == a;
    } else {
      assert (a + b)[..|a + b| - 1] == a + b[..|b| - 1];
      ApplyRowsConcat(scopes, a, b[..|b| - 1]);
    }
  }

  /** Rows past the first only move the root, to the last of them. */
  lemma {:induction false} DeeperRowsMoveRoot(scopes: map<nat, Scope>, rows: seq<AncestryRow>, start: nat)
    requires start in scopes
    requires forall r :: r in rows ==> r.start == start && r.depth > 0
    ensures ApplyRows(scopes, rows)
         == if rows == [] then scopes else scopes[start := Scope(scopes[start].parent, rows[|rows| - 1].id)]
  {
    if rows != [] {
      DeeperRowsMoveRoot(scopes, rows[..|rows| - 1], start);
      assert rows[|rows| - 1] in rows;
    }
  }

  lemma {:induction false} AncestryRowsOf(m: Owners, start: nat, id: nat, depth: nat)
    requires depth <= DEPTH_LIMIT
    ensures forall r :: r in Ancestry(m, start, id, depth) ==> r.start == start && r.depth >= depth
    decreases DEPTH_LIMIT - depth
  {
    if id in m && depth < DEPTH_LIMIT && m[id].Some? {
      AncestryRowsOf(m, start, m[id].value, depth + 1);
    }
  }

  lemma OneRow(scopes: map<nat, Scope>, row: AncestryRow)
    ensures ApplyRows(scopes, [row]) == ApplyRow(scopes, row)
  {
    assert [row][..0] == [];
  }

  lemma ExistingStartGathersScope(m: Owners, scopes: map<nat, Scope>, id: nat)
    requires id in scopes && scopes[id] == Scope(SENTINEL, SENTINEL)
    requires id in m
    ensures ApplyRows(scopes, Ancestry(m, id, id, 0)) == scopes[id := BatchScope(m, id)]
  {
    var first := AncestryRow(id, id, m[id], 0);
    var rest := RowsAbove(m, id);
    var s := ApplyRow(scopes, first);
    OneRow(scopes, first);
    ApplyRowsConcat(scopes, [first], rest);
    DeeperRowsMoveRoot(s, rest, id);
  }

  lemma OneStartGathersScope(m: Owners, scopes: map<nat, Scope>, id: nat)
    requires id in scopes && scopes[id] == Scope(SENTINEL, SENTINEL)
    ensures ApplyRows(scopes, Ancestry(m, id, id, 0)) == scopes[id := BatchScope(m, id)]
  {
    if id in m {
      ExistingStartGathersScope(m, scopes, id);
    } else {
      assert scopes[id := BatchScope(m, id)] == scopes;
    }
  }

  /** The rows of a start past its own. */
  function RowsAbove(m: Owners, id: nat): (rest: seq<AncestryRow>)
    requires id in m
    ensures Ancestry(m, id, id, 0) == [AncestryRow(id, id, m[id], 0)] + rest
    ensures forall r :: r in rest ==> r.start == id && r.depth > 0
  {
    if m[id].Some? then
      AncestryRowsOf(m, id, m[id].value, 1);
      Ancestry(m, id, m[id].value, 1)
    else
      []
  }

  /** The scopes once these starts have theirs. */
  function Gathered(m: Owners, scopes: map<nat, Scope>, starts: seq<nat>): map<nat, Scope> {
    map id | id in scopes :: if id in starts then BatchScope(m, id) else scopes[id]
  }

  lemma GatheredOneMore(m: Owners, scopes: map<nat, Scope>, front: seq<nat>, last: nat)
    requires last in scopes && last !in front
    ensures last in Gathered(m, scopes, front) && Gathered(m, scopes, front)[last] == scopes[last]
    ensures Gathered(m, scopes, front)[last := BatchScope(m, last)] == Gathered(m, scopes, front + [last])
  {
    var a, b := Gathered(m, scopes, front)[last := BatchScope(m, last)], Gathered(m, scopes, front + [last]);
    forall id | id in scopes ensures a[id] == b[id] {
      assert id in front + [last] <==> id in front || id == last;
    }
    assert a.Keys == scopes.Keys == b.Keys;
  }

  lemma {:induction false} AllStartsGatherScopes(m: Owners, scopes: map<nat, Scope>, starts: seq<nat>)
    requires StrictlyAscending(starts)
    requires forall id :: id in starts ==> id in scopes && scopes[id] == Scope(SENTINEL, SENTINEL)
    ensures ApplyRows(scopes, AllAncestry(m, starts)) == Gathered(m, scopes, starts)
  {
    if starts == [] {
      assert Gathered(m, scopes, starts) == scopes;
    } else {
      var n := |starts| - 1;
      var front, last := starts[..n], starts[n];
      assert last in starts && starts == front + [last] && last !in front;
      AllStartsGatherScopes(m, scopes, front);
      ApplyRowsConcat(scopes, AllAncestry(m, front), Ancestry(m, last, last, 0));
      GatheredOneMore(m, scopes, front, last);
      OneStartGathersScope(m, Gathered(m, scopes, front), last);
    }
  }

  // ---- the request-local cache ----

  function Seeded(scopes: map<nat, Scope>, missing: set<nat>): map<nat, Scope> {
    map id | id in scopes.Keys + missing :: if id in missing then Scope(SENTINEL, SENTINEL) else scopes[id]
  }

  method UniqueNonZeroIDs(ids: seq<nat>) returns (r: seq<nat>)
    ensures StrictlyAscending(r)
    ensures forall id :: id in r <==> id in ids && id != 0
  {
    var seen: set<nat> := {};
    var out: seq<nat> := [];
    for i := 0 to |ids|
      invariant forall id :: id in seen <==> id in ids[..i] && id != 0
      invariant forall id :: id in out <==> id in seen
      invariant Distinct(out)
    {
      assert ids[..i + 1] == ids[..i] + [ids[i]];
      if ids[i] != 0 && ids[i] !in seen {
        seen := seen + {ids[i]};
        out := out + [ids[i]];
      }
    }
    assert ids[..|ids|] == ids;
    r := SortIds(out);
    SortIdsSorts(out);
    DistinctPermutation(r, out);
    assert forall id :: id in r <==> id in multiset(r);
    assert forall id :: id in out <==> id in multiset(out);
    assert forall i, j :: 0 <= i < j < |r| ==> r[i] != r[j];
  }

  method UnloadedIDs(ids: seq<nat>, loaded: set<nat>) returns (missing: seq<nat>)
    requires StrictlyAscending(ids)
    ensures StrictlyAscending(missing)
    ensures forall id :: id in missing <==> id in ids && id !in loaded
  {
    missing := [];
    for i := 0 to |ids|
      invariant StrictlyAscending(missing)
      invariant forall id :: id in missing <==> id in ids[..i] && id !in loaded
      invariant forall k :: 0 <= k < |missing| ==> missing[k] in ids[..i]
    {
      assert ids[..i + 1] == ids[..i] + [ids[i]];
      if ids[i] !in loaded {
        assert forall k :: 0 <= k < |missing| ==> missing[k] < ids[i];
        missing := missing + [ids[i]];
      }
    }
    assert ids[..|ids|] == ids;
  }

  class RenderCache {
    var scopes: map<nat, Scope>
    var loadedScopes: set<nat>

    /** Everything marked loaded is what the batch loader finds in this database. */
    ghost predicate Agrees(m: Owners)
      reads this
    {
      forall id :: id in loadedScopes ==> id in scopes && scopes[id] == BatchScope(m, id)
    }

    constructor ()
      ensures scopes == map[] && loadedScopes == {}
      ensures forall m: Owners :: Agrees(m)
    {
      scopes, loadedScopes := map[], {};
    }

    /** Loads the scopes of the ids not loaded yet. A failing query changes nothing. */
    method LoadScopes(m: Owners, ids: seq<nat>, queryFails: bool) returns (ok: bool)
      requires Agrees(m) && StrictlyAscending(ids)
      modifies this
      ensures Agrees(m)
      ensures ok <==> !queryFails || forall id :: id in ids ==> id in old(loadedScopes)
      ensures loadedScopes == if ok then old(loadedScopes) + (set id | id in ids) else old(loadedScopes)
      ensures !ok ==> scopes == old(scopes)
      ensures forall id :: id in old(loadedScopes) ==> scopes[id] == old(scopes)[id]
    {
      var missing := UnloadedIDs(ids, loadedScopes);
      if missing == [] {
        assert forall id :: id in ids && id !in loadedScopes ==> id in missing;
        return true;
      }
      assert missing[0] in missing;
      if queryFails {
        return false;
      }
      var rows := AllAncestry(m, missing);
      SeedScopes(missing);
      AllStartsGatherScopes(m, scopes, missing);
      GatherRows(rows);
      loadedScopes := loadedScopes + (set id | id in missing);
      ok := true;
    }

    /** Every id asked for starts out unresolved. */
    method SeedScopes(missing: seq<nat>)
      modifies this`scopes
      ensures scopes == Seeded(old(scopes), set id | id in missing)
    {
      for i := 0 to |missing|
        invariant scopes == Seeded(old(scopes), set id | id in missing[..i])
      {
        assert missing[..i + 1] == missing[..i] + [missing[i]];
        scopes := scopes[missing[i] := Scope(SENTINEL, SENTINEL)];
      }
      assert missing[..|missing|] == missing;
    }

    method GatherRows(rows: seq<AncestryRow>)
      modifies this`scopes
      ensures scopes == ApplyRows(old(scopes), rows)
    {
      for i := 0 to |rows|
        invariant scopes == ApplyRows(old(scopes), rows[..i])
      {
        assert rows[..i + 1][..i] == rows[..i];
        scopes := ApplyRow(scopes, rows[i]);
      }
      assert rows[..|rows|] == rows;
    }

    /** The scopes part of LoadMRQLRenderData. Whatever earlier calls have cached, the
        answer is the batch scope of every requested non-zero id. */
    method LoadRenderScopes(m: Owners, ids: seq<nat>, queryFails: bool) returns (r: Option<map<nat, Scope>>)
      requires Agrees(m)
      modifies this
      ensures Agrees(m)
      ensures r.None? ==> queryFails && scopes == old(scopes) && loadedScopes == old(loadedScopes)
      ensures r.Some? ==> r.value == map id | id in ids && id != 0 :: BatchScope(m, id)
    {
      var unique := UniqueNonZeroIDs(ids);
      var ok := LoadScopes(m, unique, queryFails);
      if !ok {
        return None;
      }
      var data: map<nat, Scope> := map[];
      for i := 0 to |unique|
        invariant forall id :: id in data <==> id in unique[..i]
        invariant forall id :: id in data ==> data[id] == BatchScope(m, id)
      {
        assert unique[..i + 1] == unique[..i] + [unique[i]];
        assert unique[i] in unique;
        data := data[unique[i] := scopes[unique[i]]];
      }
      assert unique[..|unique|] == unique;
      r := Some(data);
    }
  }

  // ---- agreement ----

  /** The last row of a start's ancestry, against the walk of the same length: the rows
      end where the walk rests, unless the walk has stepped onto a group that is missing. */
  lemma {:induction false} AncestryEndsWhereWalkRests(m: Owners, start: nat, id: nat, depth: nat)
    requires 0 !in m && id in m && depth <= DEPTH_LIMIT
    ensures var rows := Ancestry(m, start, id, depth);
      && rows != [] && rows[|rows| - 1].id in m
      && (RestsAt(m, id, DEPTH_LIMIT - depth) in m <==> rows[|rows| - 1].id == RestsAt(m, id, DEPTH_LIMIT - depth))
    decreases DEPTH_LIMIT - depth
  {
    if depth < DEPTH_LIMIT && m[id].Some? && m[id].value in m {
      AncestryEndsWhereWalkRests(m, start, m[id].value, depth + 1);
    }
  }

  lemma {:induction false} RestExists(m: Owners, g: nat, n: nat)
    requires NonDangling(m) && g in m
    ensures RestsAt(m, g, n) in m
    decreases n
  {
    if n > 0 && UsableOwner(m, g).Some? { RestExists(m, UsableOwner(m, g).value, n - 1); }
  }

  /** For an existing group of a non-dangling ownership, cyclic or longer than the walk
      allows included, the batch scope is what the two walks return. */
  lemma BatchScopeIsWalk(m: Owners, id: nat)
    requires 0 !in m && NonDangling(m) && id in m
    ensures BatchScope(m, id) == Scope(ParentScope(m, id), RestsAt(m, id, DEPTH_LIMIT))
  {
    AncestryEndsWhereWalkRests(m, id, id, 0);
    RestExists(m, id, DEPTH_LIMIT);
  }

  /** The scopes in terms of ownership: the parent is the owner, the sentinel for none; the
      root is the last group of the chain, or the one 50 steps up. */
  lemma ScopesAreOwners(m: Owners, id: nat)
    requires 0 !in m && NonDangling(m) && id in m
    ensures ParentScope(m, id) == if m[id].Some? then m[id].value else 0x7fff_ffff_ffff_ffff
    ensures BatchScope(m, id).parent == if m[id].Some? then m[id].value else 0x7fff_ffff_ffff_ffff
    ensures BatchScope(m, id).root in m
    ensures exists k: nat :: k <= 50 && Above(m, id, k) == Some(BatchScope(m, id).root)
                         && (k == 50 || m[BatchScope(m, id).root].None?)
  {
    BatchScopeIsWalk(m, id);
    RestsOnChain(m, id, 50);
    RestExists(m, id, 50);
  }

  /** Whatever the ownership, the two roots agree exactly when the walk rests on a group
      that exists; with no dangling owners, exactly when the group asked for exists. */
  lemma RootsAgreeIff(m: Owners, id: nat)
    requires 0 !in m && id != 0 && id != SENTINEL
    ensures BatchScope(m, id).root == RestsAt(m, id, DEPTH_LIMIT) <==> RestsAt(m, id, DEPTH_LIMIT) in m
    ensures NonDangling(m) ==> (BatchScope(m, id).root == RestsAt(m, id, DEPTH_LIMIT) <==> id in m)
  {
    if id in m {
      AncestryEndsWhereWalkRests(m, id, id, 0);
      if NonDangling(m) { RestExists(m, id, DEPTH_LIMIT); }
    }
  }

  /** The failing input is any id without a group: the walk returns the id itself, although
      its documentation promises the sentinel, which is what the batch loader stores. */
  lemma MissingGroupRootsDiffer(m: Owners, id: nat)
    requires id !in m && id != 0 && id != SENTINEL
    ensures RestsAt(m, id, DEPTH_LIMIT) == id && BatchScope(m, id) == Scope(SENTINEL, SENTINEL)
    ensures BatchScope(m, id).root != RestsAt(m, id, DEPTH_LIMIT)
  {
  }

  /** The walk in terms of ownership chains: it rests on the last group of a chain that
      ends within reach, and 50 steps up any other. */
  lemma {:induction false} RestsOnChain(m: Owners, g: nat, n: nat)
    requires 0 !in m && NonDangling(m) && g in m
    ensures exists k: nat :: k <= n && Above(m, g, k) == Some(RestsAt(m, g, n))
                       && (k == n || UsableOwner(m, RestsAt(m, g, n)).None?)
    decreases n
  {
    if n == 0 || UsableOwner(m, g).None? {
      assert Above(m, g, 0) == Some(g);
    } else {
      var o := m[g].value;
      RestsOnChain(m, o, n - 1);
      RestExists(m, o, n - 1);
      var k: nat :| k <= n - 1 && Above(m, o, k) == Some(RestsAt(m, o, n - 1))
                 && (k == n - 1 || UsableOwner(m, RestsAt(m, o, n - 1)).None?);
      assert Above(m, g, k + 1) == Some(RestsAt(m, g, n));
    }
  }
}
