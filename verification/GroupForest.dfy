/** What creating, re-parenting, deleting and merging groups do to the owner column
    (application_context/group_crud_context.go and group_bulk_context.go). */
module GroupForest {
  import opened Outcomes
  import opened OwnershipChains

  /** How far UpdateGroup and MergeGroups follow a chain upwards. */
  const WALK_LIMIT: nat := 100

  datatype GroupError =
    | OwnerNotFound | SelfOwner | OwnershipCycle | GroupNotFound | GroupIsUserScope | VetoedByHook
    | NoLosers | InvalidWinner | InvalidLoser | WinnerIsLoser | LosersNotFound

  function Reparented(m: Owners, id: nat, owner: Option<nat>): Owners {
    if id in m then m[id := owner] else m
  }

  function Deleted(m: Owners, id: nat): Owners {
    map g | g in m && g != id :: if m[g] == Some(id) then None else m[g]
  }

  /** UPDATE groups SET owner_id = winner WHERE owner_id IN losers. */
  function Contracted(m: Owners, winner: nat, losers: set<nat>): Owners {
    map g | g in m :: if m[g].Some? && m[g].value in losers then Some(winner) else m[g]
  }

  ghost predicate LoserAbove(m: Owners, g: nat, losers: set<nat>) {
    exists i: nat :: 0 < i && LoserAt(m, g, losers, i)
  }

  ghost predicate LoserAboveWithin(m: Owners, g: nat, losers: set<nat>, steps: nat) {
    exists i: nat :: 0 < i <= steps && LoserAt(m, g, losers, i)
  }

  predicate LoserAt(m: Owners, g: nat, losers: set<nat>, i: nat) {
    Above(m, g, i).Some? && Above(m, g, i).value in losers
  }

  /** What the group a merge walk nulls is: the first one it meets twice, if it meets one
      within the steps left. */
  function RepeatedOnWalk(m: Owners, current: Option<nat>, visited: set<nat>, steps: nat): Option<nat>
    decreases steps
  {
    if steps == 0 || current.None? then None
    else if current.value in visited then current
    else if current.value !in m then None
    else RepeatedOnWalk(m, m[current.value], visited + {current.value}, steps - 1)
  }

  function WithoutOwner(m: Owners, g: Option<nat>): Owners {
    if g.Some? then Reparented(m, g.value, None) else m
  }

  /** The owner column after a merge: contract, break the walk's repeat, drop the losers. */
  function Merged(m: Owners, winner: nat, losers: seq<nat>): Owners
    requires winner in m
  {
    var contracted := Contracted(m, winner, set l | l in losers);
    DeletedAll(WithoutOwner(contracted, RepeatedOnWalk(contracted, contracted[winner], {winner}, WALK_LIMIT)), losers)
  }

  function DeletedAll(m: Owners, ids: seq<nat>): Owners {
    if ids == [] then m else Deleted(DeletedAll(m, ids[..|ids| - 1]), ids[|ids| - 1])
  }

  /** Users confined to the loser are confined to the winner instead. */
  function ScopesMoved(scopes: map<nat, nat>, winner: nat, loser: nat): map<nat, nat> {
    map u | u in scopes :: if scopes[u] == loser then winner else scopes[u]
  }

  function ScopesMovedAll(scopes: map<nat, nat>, winner: nat, losers: seq<nat>): map<nat, nat> {
    if losers == [] then scopes
    else ScopesMoved(ScopesMovedAll(scopes, winner, losers[..|losers| - 1]), winner, losers[|losers| - 1])
  }
}
