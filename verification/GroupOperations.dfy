/** The operations on groups, statement by statement
    (application_context/group_crud_context.go and group_bulk_context.go). */
module GroupOperations {
  import opened Outcomes
  import opened IdLists
  import opened OwnershipChains
  import opened Sequences
  import opened GroupForest
  import opened GroupForestLaws

  /** The groups table reduced to ownership, and the group each scoped user is confined to. */
  class GroupStore {
    var owner: Owners
    var userScope: map<nat, nat>

    /** Ids are positive, and foreign keys hold. */
    ghost predicate Valid()
      reads this
    {
      0 !in owner && NonDangling(owner) && forall u :: u in userScope ==> userScope[u] in owner
    }

    constructor ()
      ensures Valid() && owner == map[] && userScope == map[]
    {
      owner, userScope := map[], map[];
    }

    /** Inserts a group under an id the database has never used. Owner 0 means none. */
    method CreateGroup(id: nat, ownerId: nat) returns (r: Result<nat, GroupError>)
      requires Valid() && id > 0 && id !in owner
      modifies this
      ensures Valid() && userScope == old(userScope)
      ensures r == if ownerId != 0 && ownerId !in old(owner) then Err(OwnerNotFound) else Ok(id)
      ensures owner == if r.Err? then old(owner)
                       else old(owner)[id := if ownerId == 0 then None else Some(ownerId)]
      ensures IsForest(old(owner)) ==> IsForest(owner)
    {
      if IsForest(owner) && (ownerId == 0 || ownerId in owner) {
        CreateKeepsForest(owner, id, if ownerId == 0 then None else Some(ownerId));
      }
      var newOwner := None;
      if ownerId != 0 {
        if ownerId !in owner {
          return Err(OwnerNotFound);
        }
        newOwner := Some(ownerId);
      }
      owner := owner[id := newOwner];
      r := Ok(id);
    }

    /** Re-parents a group. The walk up from the proposed owner refuses exactly when it
        meets the group within its limit. */
    method UpdateGroup(id: nat, ownerId: nat) returns (r: Result<nat, GroupError>)
      requires Valid()
      modifies this
      ensures Valid() && userScope == old(userScope)
      ensures r ==
        if ownerId == 0 then Ok(id)
        else if ownerId == id then Err(SelfOwner)
        else if ownerId !in old(owner) then Err(OwnerNotFound)
        else if IsAncestorWithin(old(owner), id, ownerId, 100) then Err(OwnershipCycle)
        else Ok(id)
      ensures owner == if r.Err? || id !in old(owner) then old(owner)
                       else old(owner)[id := if ownerId == 0 then None else Some(ownerId)]
      ensures IsForest(old(owner)) && r.Ok? && id in old(owner) ==>
        (IsForest(owner) <==> ownerId == 0 || !IsAncestor(old(owner), id, ownerId))
      ensures IsForest(old(owner)) && (ownerId == 0 || EndsWithin(old(owner), ownerId, 101)) ==>
        IsForest(owner)
    {
      if IsForest(owner) {
        ForestAfterUpdate(owner, id, ownerId);
      }
      if ownerId == 0 {
        owner := Reparented(owner, id, None);
        return Ok(id);
      }
      if ownerId == id {
        return Err(SelfOwner);
      }
      var currentAncestor := ownerId;
      for i := 0 to WALK_LIMIT
        invariant Above(owner, ownerId, i) == Some(currentAncestor)
        invariant i > 0 ==> ownerId in owner
        invariant forall j :: 0 < j <= i ==> Above(owner, ownerId, j) != Some(id)
        invariant owner == old(owner) && userScope == old(userScope)
      {
        if currentAncestor !in owner {
          if i == 0 {
            return Err(OwnerNotFound);
          }
          ChainStops(owner, ownerId, i, id);
          break;
        }
        AboveAdd(owner, ownerId, i, 1);
        if owner[currentAncestor].None? {
          ChainStops(owner, ownerId, i, id);
          break;
        }
        if owner[currentAncestor].value == id {
          assert 0 < i + 1 <= WALK_LIMIT && Above(owner, ownerId, i + 1) == Some(id);
          return Err(OwnershipCycle);
        }
        currentAncestor := owner[currentAncestor].value;
      }
      owner := Reparented(owner, id, Some(ownerId));
      r := Ok(id);
    }

    /** The statements that remove one group, inside the caller's transaction. */
    method DeleteGroupInTransaction(id: nat) returns (r: Result<nat, GroupError>)
      requires Valid()
      modifies this
      ensures Valid() && userScope == old(userScope)
      ensures r ==
        if id !in old(owner) then Err(GroupNotFound)
        else if id in old(userScope).Values then Err(GroupIsUserScope)
        else Ok(id)
      ensures r.Err? ==> owner == old(owner)
      ensures r.Ok? ==> owner.Keys == old(owner).Keys - {id} && owner == Deleted(old(owner), id)
      ensures r.Ok? ==> forall g :: g in owner ==> owner[g] == if old(owner)[g] == Some(id) then None else old(owner)[g]
      ensures IsForest(old(owner)) ==> IsForest(owner)
    {
      if IsForest(owner) { DeleteKeepsForest(owner, id); }
      if id !in owner {
        return Err(GroupNotFound);
      }
      if id in userScope.Values {
        return Err(GroupIsUserScope);
      }
      owner := map g | g in owner :: if owner[g] == Some(id) then None else owner[g];
      owner := map g | g in owner && g != id :: owner[g];
      r := Ok(id);
    }

    /** Locks each id as it comes: it must exist, and not have been locked before. */
    method LockEach(lockIds: seq<nat>, winnerId: nat) returns (error: Option<GroupError>)
      ensures error.None? <==> Distinct(lockIds) && forall x :: x in lockIds ==> x in owner
      ensures error.Some? ==> error.value in {LosersNotFound, GroupNotFound}
      ensures error == Some(GroupNotFound) ==> winnerId !in owner
    {
      var locked: set<nat> := {};
      for i := 0 to |lockIds|
        invariant forall x :: x in locked <==> x in lockIds[..i]
        invariant forall k :: 0 <= k < i ==> lockIds[k] in locked && lockIds[k] in owner
        invariant Distinct(lockIds[..i])
      {
        var id := lockIds[i];
        assert id in lockIds;
        if id in locked {
          var j :| 0 <= j < i && lockIds[j] == id;
          assert !Distinct(lockIds);
          return Some(LosersNotFound);
        }
        if id !in owner {
          return Some(if id != winnerId then LosersNotFound else GroupNotFound);
        }
        locked := locked + {id};
        assert lockIds[..i + 1] == lockIds[..i] + [id];
      }
      assert lockIds[..|lockIds|] == lockIds;
      error := None;
    }

    /** Locks the merge set in id order: everything must exist, once. */
    method LockMergeSet(winnerId: nat, loserIds: seq<nat>) returns (error: Option<GroupError>)
      ensures error.None? <==>
        Distinct([winnerId] + loserIds) && forall x :: x in [winnerId] + loserIds ==> x in owner
      ensures error.Some? ==> error.value in {LosersNotFound, GroupNotFound}
      ensures error == Some(GroupNotFound) ==> winnerId !in owner
    {
      var all := [winnerId] + loserIds;
      var lockIds := SortIds(all);
      SortIdsSorts(all);
      DistinctPermutation(lockIds, all);
      assert forall x :: x in lockIds <==> x in multiset(lockIds);
      assert forall x :: x in all <==> x in multiset(all);
      error := LockEach(lockIds, winnerId);
    }

    /** Merges the losers into the winner. `vetoed` are the groups whose delete a plugin's
        before-hook refuses; any error rolls the whole merge back. */
    method MergeGroups(winnerId: nat, loserIds: seq<nat>, vetoed: set<nat>) returns (r: Result<nat, GroupError>)
      requires Valid()
      modifies this
      ensures Valid()
      ensures r.Ok? <==>
        && loserIds != [] && winnerId != 0 && winnerId !in loserIds && 0 !in loserIds
        && winnerId in old(owner) && (forall l :: l in loserIds ==> l in old(owner) && l !in vetoed)
        && Distinct(loserIds)
      ensures r.Err? ==> owner == old(owner) && userScope == old(userScope)
      ensures r.Ok? ==> owner == Merged(old(owner), winnerId, loserIds)
      ensures r.Ok? ==> forall g :: g in owner <==> g in old(owner) && g !in loserIds
      ensures r.Ok? ==> userScope.Keys == old(userScope).Keys
      ensures r.Ok? ==> forall u :: u in userScope ==>
        userScope[u] == if old(userScope)[u] in loserIds then winnerId else old(userScope)[u]
      ensures r.Ok? && IsForest(old(owner)) ==> MovesToWinner(old(owner), owner, winnerId, set l | l in loserIds)
      ensures r.Ok? && IsForest(old(owner)) ==>
        var lost := set l | l in loserIds;
        && (IsForest(owner) <==>
              (LoserAbove(old(owner), winnerId, lost) ==> LoserAboveWithin(old(owner), winnerId, lost, 100)))
        && (EndsWithin(old(owner), winnerId, 101) ==> IsForest(owner))
    {
      var refused := CheckMergeIds(winnerId, loserIds);
      if refused.Some? {
        return Err(refused.value);
      }
      var error := LockMergeSet(winnerId, loserIds);
      if error.Some? {
        return Err(error.value);
      }
      MergeSetMembers(winnerId, loserIds);
      var savedOwner, savedScope := owner, userScope;
      owner := Contracted(owner, winnerId, set l | l in loserIds);
      BreakRepeat(winnerId);
      var dropped := DropLosers(winnerId, loserIds, vetoed);
      if !dropped {
        owner, userScope := savedOwner, savedScope;
        return Err(VetoedByHook);
      }
      if IsForest(old(owner)) {
        ForestAfterMerge(old(owner), winnerId, loserIds);
        MergeMovesToWinner(old(owner), winnerId, loserIds);
      }
      ScopesMovedAllAre(old(userScope), winnerId, loserIds);
      MergedKeys(old(owner), winnerId, loserIds);
      r := Ok(winnerId);
    }

    /** The refusals that need no database. */
    static method CheckMergeIds(winnerId: nat, loserIds: seq<nat>) returns (error: Option<GroupError>)
      ensures error.None? <==> loserIds != [] && winnerId != 0 && winnerId !in loserIds && 0 !in loserIds
    {
      if loserIds == [] {
        return Some(NoLosers);
      }
      if winnerId == 0 {
        return Some(InvalidWinner);
      }
      for i := 0 to |loserIds|
        invariant forall j :: 0 <= j < i ==> loserIds[j] != 0 && loserIds[j] != winnerId
      {
        if loserIds[i] == 0 {
          return Some(InvalidLoser);
        }
        if loserIds[i] == winnerId {
          return Some(WinnerIsLoser);
        }
      }
      error := None;
    }

    /** Drops the losers one by one, unless a hook vetoes one of them. */
    method DropLosers(winnerId: nat, loserIds: seq<nat>, vetoed: set<nat>) returns (ok: bool)
      requires Valid() && winnerId in owner && winnerId !in loserIds && Distinct(loserIds)
      requires forall k :: 0 <= k < |loserIds| ==> loserIds[k] in owner
      modifies this
      ensures ok <==> forall k :: 0 <= k < |loserIds| ==> loserIds[k] !in vetoed
      ensures ok ==> Valid() && owner == DeletedAll(old(owner), loserIds)
      ensures ok ==> userScope == ScopesMovedAll(old(userScope), winnerId, loserIds)
    {
      for i := 0 to |loserIds|
        invariant Valid() && winnerId in owner
        invariant owner == DeletedAll(old(owner), loserIds[..i])
        invariant userScope == ScopesMovedAll(old(userScope), winnerId, loserIds[..i])
        invariant forall k :: i <= k < |loserIds| ==> loserIds[k] in owner
        invariant forall k :: 0 <= k < i ==> loserIds[k] !in vetoed
      {
        if loserIds[i] in vetoed {
          return false;
        }
        assert loserIds[i] in loserIds;
        DropLoser(winnerId, loserIds[i]);
        assert loserIds[..i + 1][..i] == loserIds[..i];
      }
      assert loserIds[..|loserIds|] == loserIds;
      ok := true;
    }

    /** Moves one loser's scoped users to the winner, then deletes it. */
    method DropLoser(winnerId: nat, id: nat)
      requires Valid() && winnerId in owner && id in owner && id != winnerId
      modifies this
      ensures Valid() && owner == Deleted(old(owner), id)
      ensures userScope == ScopesMoved(old(userScope), winnerId, id)
    {
      userScope := ScopesMoved(userScope, winnerId, id);
      assert id !in userScope.Values;
      var deleted := DeleteGroupInTransaction(id);
    }

    /** Walks up from the winner and takes the owner from the first group met twice. */
    method BreakRepeat(winnerId: nat)
      requires winnerId in owner && NonDangling(owner)
      modifies this`owner
      ensures owner ==
        WithoutOwner(old(owner), RepeatedOnWalk(old(owner), old(owner)[winnerId], {winnerId}, WALK_LIMIT))
    {
      var visited := {winnerId};
      var current := owner[winnerId];
      var i := 0;
      while i < WALK_LIMIT && current.Some?
        invariant 0 <= i <= WALK_LIMIT && owner == old(owner)
        invariant RepeatedOnWalk(owner, owner[winnerId], {winnerId}, WALK_LIMIT)
               == RepeatedOnWalk(owner, current, visited, WALK_LIMIT - i)
      {
        if current.value in visited {
          owner := Reparented(owner, current.value, None);
          return;
        }
        if current.value !in owner {
          return;
        }
        visited := visited + {current.value};
        current := owner[current.value];
        i := i + 1;
      }
    }
  }

  /** The owners a merge of a forest leaves: the losers' groups are the winner's, and
      nothing else changes hands, except that a winner with a loser among the first 100
      above it becomes a root. */
  ghost predicate MovesToWinner(before: Owners, after: Owners, winner: nat, losers: set<nat>) {
    forall g :: g in after && g in before ==>
      if g == winner && LoserAboveWithin(before, winner, losers, 100) then after[g].None?
      else if before[g].Some? && before[g].value in losers then after[g] == Some(winner)
      else after[g] == before[g]
  }

  lemma MergeMovesToWinner(m: Owners, winner: nat, losers: seq<nat>)
    requires Mergeable(m, winner, set l | l in losers)
    ensures MovesToWinner(m, Merged(m, winner, losers), winner, set l | l in losers)
  {
    MergedSurvivors(m, winner, losers);
  }

  lemma MergedKeys(m: Owners, winner: nat, losers: seq<nat>)
    requires winner in m && NonDangling(m) && winner !in losers
    ensures forall g :: g in Merged(m, winner, losers) <==> g in m && g !in losers
  {
    DeletedAllKeys(WithoutOwner(Contracted(m, winner, set l | l in losers),
      RepeatedOnWalk(Contracted(m, winner, set l | l in losers), Contracted(m, winner, set l | l in losers)[winner],
        {winner}, WALK_LIMIT)), losers);
  }

  lemma {:induction false} DeletedAllKeys(m: Owners, ids: seq<nat>)
    ensures forall g :: g in DeletedAll(m, ids) <==> g in m && g !in ids
  {
    if ids != [] {
      var front := ids[..|ids| - 1];
      DeletedAllKeys(m, front);
      assert ids == front + [ids[|ids| - 1]];
    }
  }

  lemma {:induction false} ScopesMovedAllAre(scopes: map<nat, nat>, winner: nat, losers: seq<nat>)
    requires winner !in losers
    ensures ScopesMovedAll(scopes, winner, losers).Keys == scopes.Keys
    ensures forall u :: u in scopes ==>
      ScopesMovedAll(scopes, winner, losers)[u] == if scopes[u] in losers then winner else scopes[u]
  {
    if losers != [] {
      var front := losers[..|losers| - 1];
      ScopesMovedAllAre(scopes, winner, front);
      assert losers == front + [losers[|losers| - 1]];
    }
  }

  lemma MergeSetMembers(winner: nat, losers: seq<nat>)
    ensures Distinct([winner] + losers) <==> winner !in losers && Distinct(losers)
    ensures forall l :: l in [winner] + losers <==> l == winner || l in losers
  {
    assert ([winner] + losers)[1..] == losers;
    DistinctTail([winner] + losers);
  }

  lemma ChainStops(m: Owners, g: nat, i: nat, id: nat)
    requires Above(m, g, i).Some? && (Above(m, g, i).value !in m || m[Above(m, g, i).value].None?)
    requires forall j :: 0 < j <= i ==> Above(m, g, j) != Some(id)
    ensures forall j :: 0 < j ==> Above(m, g, j) != Some(id)
  {
    forall j | 0 < j ensures Above(m, g, j) != Some(id) {
      if j > i { AboveAdd(m, g, i, j - i); }
    }
  }
}
