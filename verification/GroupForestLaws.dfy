/** What the group operations keep: ownership stays a forest, and exactly when the bounded
    walks of UpdateGroup and MergeGroups are not enough for that. */
module GroupForestLaws {
  import opened Outcomes
  import opened OwnershipChains
  import opened GroupForest

  // ---- create and delete ----

  lemma CreateKeepsForest(m: Owners, id: nat, owner: Option<nat>)
    requires IsForest(m) && id !in m && (owner.Some? ==> owner.value in m)
    ensures IsForest(m[id := owner])
  {
    var after := m[id := owner];
    forall g | g in m ensures Ends(after, g) {
      var n: nat :| EndsWithin(m, g, n);
      CreateKeepsChain(m, id, owner, g, n);
      assert EndsWithin(after, g, n);
    }
    if owner.Some? {
      var n: nat :| EndsWithin(after, owner.value, n);
      assert EndsWithin(after, id, n + 1);
    } else {
      assert EndsWithin(after, id, 1);
    }
  }

  lemma {:induction false} CreateKeepsChain(m: Owners, id: nat, owner: Option<nat>, g: nat, n: nat)
    requires NonDangling(m) && id !in m && g in m
    ensures Above(m[id := owner], g, n) == Above(m, g, n)
    decreases n
  {
    if n > 0 && m[g].Some? { CreateKeepsChain(m, id, owner, m[g].value, n - 1); }
  }

  /** Deleting any group leaves a forest: its children become roots. */
  lemma DeleteKeepsForest(m: Owners, id: nat)
    requires IsForest(m)
    ensures IsForest(Deleted(m, id))
  {
    forall g | g in Deleted(m, id) ensures Ends(Deleted(m, id), g) {
      var n: nat :| EndsWithin(m, g, n);
      DeleteCutsChain(m, id, g, n);
    }
  }

  lemma {:induction false} DeleteCutsChain(m: Owners, id: nat, g: nat, n: nat)
    requires EndsWithin(m, g, n)
    ensures EndsWithin(Deleted(m, id), g, n)
    decreases n
  {
    if g in m && m[g].Some? { DeleteCutsChain(m, id, m[g].value, n - 1); }
  }

  // ---- re-parenting ----

  /** Re-parenting a group of a forest gives a forest exactly when the group is not above
      its new owner. */
  lemma ReparentForestIff(m: Owners, id: nat, owner: nat)
    requires IsForest(m) && id in m && owner in m && owner != id
    ensures IsForest(Reparented(m, id, Some(owner))) <==> !IsAncestor(m, id, owner)
  {
    var after := Reparented(m, id, Some(owner));
    if IsAncestor(m, id, owner) {
      var i: nat :| i > 0 && Above(m, owner, i) == Some(id);
      var k := FirstMeeting(m, id, owner, i);
      KeptUntilMeeting(m, id, Some(owner), owner, k);
      assert Above(after, id, k + 1) == Some(id);
      assert IsAncestor(after, id, id);
      ForestIffNoCycle(after);
    } else {
      var p: nat :| EndsWithin(m, owner, p);
      KeptWithoutMeeting(m, id, Some(owner), owner, p);
      forall g | g in after ensures Ends(after, g) {
        var n: nat :| EndsWithin(m, g, n);
        EndsThroughOwner(m, id, owner, g, n, p);
      }
    }
  }

  lemma {:induction false} FirstMeeting(m: Owners, id: nat, g: nat, i: nat) returns (k: nat)
    requires Above(m, g, i) == Some(id)
    ensures k <= i && Above(m, g, k) == Some(id)
    ensures forall j :: 0 <= j < k ==> Above(m, g, j) != Some(id)
  {
    k := 0;
    while Above(m, g, k) != Some(id)
      invariant k <= i && forall j :: 0 <= j < k ==> Above(m, g, j) != Some(id)
      decreases i - k
    {
      k := k + 1;
    }
  }

  lemma {:induction false} KeptUntilMeeting(m: Owners, id: nat, owner: Option<nat>, g: nat, n: nat)
    requires forall j :: 0 <= j < n ==> Above(m, g, j) != Some(id)
    ensures Above(Reparented(m, id, owner), g, n) == Above(m, g, n)
    decreases n
  {
    if n > 0 {
      assert Above(m, g, 0) != Some(id);
      if g in m && m[g].Some? {
        forall j | 0 <= j < n - 1 ensures Above(m, m[g].value, j) != Some(id) {
          assert Above(m, g, j + 1) != Some(id);
        }
        KeptUntilMeeting(m, id, owner, m[g].value, n - 1);
      }
    }
  }

  lemma KeptWithoutMeeting(m: Owners, id: nat, owner: Option<nat>, g: nat, n: nat)
    requires g != id && !IsAncestor(m, id, g)
    ensures Above(Reparented(m, id, owner), g, n) == Above(m, g, n)
  {
    forall j | 0 <= j < n ensures Above(m, g, j) != Some(id) {
      if j == 0 { assert Above(m, g, 0) == Some(g); }
    }
    KeptUntilMeeting(m, id, owner, g, n);
  }

  lemma {:induction false} EndsThroughOwner(m: Owners, id: nat, owner: nat, g: nat, n: nat, p: nat)
    requires EndsWithin(m, g, n) && id in m
    requires EndsWithin(Reparented(m, id, Some(owner)), owner, p)
    ensures EndsWithin(Reparented(m, id, Some(owner)), g, n + p + 1)
    decreases n
  {
    var after := Reparented(m, id, Some(owner));
    if g == id {
      EndsMonotone(after, owner, p, n + p);
    } else if g in m && m[g].Some? {
      EndsThroughOwner(m, id, owner, m[g].value, n - 1, p);
    }
  }

  lemma ClearOwnerKeepsForest(m: Owners, id: nat)
    requires IsForest(m)
    ensures IsForest(Reparented(m, id, None))
  {
    var after := Reparented(m, id, None);
    forall g | g in after ensures Ends(after, g) {
      var n: nat :| EndsWithin(m, g, n);
      ClearOwnerCutsChain(m, id, g, n);
    }
  }

  lemma {:induction false} ClearOwnerCutsChain(m: Owners, id: nat, g: nat, n: nat)
    requires EndsWithin(m, g, n)
    ensures EndsWithin(Reparented(m, id, None), g, n)
    decreases n
  {
    if g != id && g in m && m[g].Some? { ClearOwnerCutsChain(m, id, m[g].value, n - 1); }
  }

  /** The walk of UpdateGroup. On a forest it accepts a re-parenting that keeps the forest
      always, and one that breaks it exactly when the group stands more than 100 steps
      above the new owner; with at most 101 groups on that chain it never does. */
  lemma AcceptedReparentKeepsForestIff(m: Owners, id: nat, owner: nat)
    requires IsForest(m) && id in m && owner in m && owner != id
    ensures IsForest(Reparented(m, id, Some(owner))) ==> !IsAncestorWithin(m, id, owner, WALK_LIMIT)
    ensures !IsAncestorWithin(m, id, owner, WALK_LIMIT) ==>
      (IsForest(Reparented(m, id, Some(owner))) <==> !IsAncestor(m, id, owner))
    ensures EndsWithin(m, owner, WALK_LIMIT + 1) ==>
      (IsAncestorWithin(m, id, owner, WALK_LIMIT) <==> !IsForest(Reparented(m, id, Some(owner))))
  {
    ReparentForestIff(m, id, owner);
    if EndsWithin(m, owner, WALK_LIMIT + 1) && IsAncestor(m, id, owner) {
      var i: nat :| i > 0 && Above(m, owner, i) == Some(id);
      if i > WALK_LIMIT {
        EndsMonotone(m, owner, WALK_LIMIT + 1, i);
      }
    }
  }

  /** What UpdateGroup leaves of a forest, a cleared owner included. */
  lemma ForestAfterUpdate(m: Owners, id: nat, ownerId: nat)
    requires IsForest(m)
    ensures id in m ==> IsForest(Reparented(m, id, None))
    ensures id in m && ownerId in m && ownerId != id ==>
      && (IsForest(Reparented(m, id, Some(ownerId))) <==> !IsAncestor(m, id, ownerId))
      && (EndsWithin(m, ownerId, WALK_LIMIT + 1) && !IsAncestorWithin(m, id, ownerId, WALK_LIMIT) ==>
            IsForest(Reparented(m, id, Some(ownerId))))
  {
    if id in m {
      ClearOwnerKeepsForest(m, id);
      if ownerId in m && ownerId != id {
        ReparentForestIff(m, id, ownerId);
        AcceptedReparentKeepsForestIff(m, id, ownerId);
      }
    }
  }

  /** A chain of n groups: 1 is the root and each other group is owned by the one before. */
  function Chain(n: nat): (m: Owners)
    ensures forall g :: g in m <==> 1 <= g <= n
    ensures forall g :: g in m ==> m[g] == if g == 1 then None else Some(g - 1)
  {
    if n == 0 then map[] else Chain(n - 1)[n := if n == 1 then None else Some(n - 1)]
  }

  lemma {:induction false} ChainAbove(n: nat, g: nat, i: nat)
    requires 1 <= g <= n
    ensures Above(Chain(n), g, i) == if i < g then Some(g - i) else None
    decreases i
  {
    if i > 0 && g > 1 { ChainAbove(n, g - 1, i - 1); }
  }

  lemma ChainIsForest(n: nat)
    ensures IsForest(Chain(n))
  {
    forall g | g in Chain(n) ensures Ends(Chain(n), g) {
      ChainAbove(n, g, g);
      assert EndsWithin(Chain(n), g, g);
    }
  }

  /** The bound is tight: at the bottom of any chain of 102 groups or more, UpdateGroup
      accepts the root as a child, and the forest is gone. */
  lemma LongChainAdmitsCycle(n: nat)
    requires n > WALK_LIMIT + 1
    ensures IsForest(Chain(n)) && !IsAncestorWithin(Chain(n), 1, n, WALK_LIMIT)
    ensures !IsForest(Reparented(Chain(n), 1, Some(n)))
  {
    ChainIsForest(n);
    forall i: nat | 0 < i <= WALK_LIMIT ensures Above(Chain(n), n, i) != Some(1) { ChainAbove(n, n, i); }
    ChainAbove(n, n, n - 1);
    assert IsAncestor(Chain(n), 1, n);
    ReparentForestIff(Chain(n), 1, n);
  }

  // ---- merging ----

  ghost predicate Mergeable(m: Owners, winner: nat, losers: set<nat>) {
    IsForest(m) && winner in m && winner !in losers
  }

  /** The ownership a merge is meant to leave. `detached` says the winner lost its owner. */
  function Survivors(m: Owners, winner: nat, losers: set<nat>, detached: bool): Owners {
    map g | g in m && g !in losers ::
      if g == winner && detached then None
      else if m[g].Some? && m[g].value in losers then Some(winner)
      else m[g]
  }

  /** The walk meets the winner again exactly when a loser stood among the next steps. */
  lemma {:induction false} WalkMeetsWinner(m: Owners, winner: nat, losers: set<nat>, i: nat, steps: nat)
    requires Mergeable(m, winner, losers)
    requires Above(m, winner, i).Some?
    ensures Above(m, winner, i).value in m
    ensures RepeatedOnWalk(Contracted(m, winner, losers), Contracted(m, winner, losers)[Above(m, winner, i).value],
              Visited(m, winner, i + 1), steps)
         == if exists k :: i < k <= i + steps && LoserAt(m, winner, losers, k) then Some(winner) else None
    decreases steps
  {
    AboveExists(m, winner, i);
    var c := Contracted(m, winner, losers);
    var a := Above(m, winner, i).value;
    AboveAdd(m, winner, i, 1);
    assert Above(m, winner, i + 1) == m[a];
    if steps == 0 {
    } else if m[a].None? {
      forall k | i < k ensures !LoserAt(m, winner, losers, k) { AboveAdd(m, winner, i + 1, k - i - 1); }
    } else if m[a].value in losers {
      assert LoserAt(m, winner, losers, i + 1);
      WinnerVisited(m, winner, i + 1);
    } else {
      var b := m[a].value;
      if b in Visited(m, winner, i + 1) {
        var j := VisitedIndex(m, winner, i + 1, b);
        EndsDistinct(m, winner, j, i + 1);
      }
      assert Visited(m, winner, i + 2) == Visited(m, winner, i + 1) + {b};
      WalkMeetsWinner(m, winner, losers, i + 1, steps - 1);
      assert !LoserAt(m, winner, losers, i + 1);
    }
  }

  lemma {:induction false} WinnerVisited(m: Owners, g: nat, k: nat)
    requires k > 0
    ensures g in Visited(m, g, k)
  {
    if k > 1 { WinnerVisited(m, g, k - 1); }
  }

  lemma {:induction false} DeletedAllOf(m: Owners, ids: seq<nat>)
    requires forall g :: g in m && m[g].Some? ==> m[g].value !in ids
    ensures DeletedAll(m, ids) == map g | g in m && g !in ids :: m[g]
  {
    if ids != [] {
      var front := ids[..|ids| - 1];
      assert forall x :: x in ids <==> x in front || x == ids[|ids| - 1];
      DeletedAllOf(m, front);
    }
  }

  /** MergeGroups contracts the losers into the winner. Survivors of losers move to the
      winner, nothing else changes hands, and the winner keeps its owner unless a loser
      stood among the first 100 groups above it, in which case it becomes a root. */
  lemma MergedSurvivors(m: Owners, winner: nat, losers: seq<nat>)
    requires Mergeable(m, winner, set l | l in losers)
    ensures var lost := set l | l in losers;
      Merged(m, winner, losers) == Survivors(m, winner, lost, LoserAboveWithin(m, winner, lost, WALK_LIMIT))
  {
    var lost := set l | l in losers;
    var c := Contracted(m, winner, lost);
    assert Visited(m, winner, 1) == {winner};
    WalkMeetsWinner(m, winner, lost, 0, WALK_LIMIT);
    var repeated := RepeatedOnWalk(c, c[winner], {winner}, WALK_LIMIT);
    assert repeated == if LoserAboveWithin(m, winner, lost, WALK_LIMIT) then Some(winner) else None;
    DeletedAllOf(WithoutOwner(c, repeated), losers);
  }

  lemma {:induction false} SurvivorEnds(m: Owners, winner: nat, losers: set<nat>, detached: bool,
    g: nat, n: nat, p: nat)
    requires EndsWithin(m, g, n)
    requires EndsWithin(Survivors(m, winner, losers, detached), winner, p)
    ensures EndsWithin(Survivors(m, winner, losers, detached), g, n + p + 1)
    decreases n
  {
    var s := Survivors(m, winner, losers, detached);
    if g == winner {
      EndsMonotone(s, winner, p, n + p + 1);
    } else if g in s && s[g].Some? {
      if m[g].value in losers {
        EndsMonotone(s, winner, p, n + p);
      } else {
        SurvivorEnds(m, winner, losers, detached, m[g].value, n - 1, p);
      }
    }
  }

  /** Up to the first loser above g, a chain that does not pass the losers is unchanged. */
  lemma {:induction false} SurvivorChain(m: Owners, winner: nat, losers: set<nat>, g: nat, n: nat)
    requires g !in losers && forall i :: 0 < i <= n ==> !LoserAt(m, g, losers, i)
    ensures Above(Survivors(m, winner, losers, false), g, n) == Above(m, g, n)
    decreases n
  {
    if n > 0 && g in m && m[g].Some? {
      assert !LoserAt(m, g, losers, 1) by { assert Above(m, g, 1) == Some(m[g].value); }
      forall i | 0 < i <= n - 1 ensures !LoserAt(m, m[g].value, losers, i) {
        assert !LoserAt(m, g, losers, i + 1);
      }
      SurvivorChain(m, winner, losers, m[g].value, n - 1);
    }
  }

  lemma {:induction false} FirstLoser(m: Owners, g: nat, losers: set<nat>, i: nat) returns (k: nat)
    requires 0 < i && LoserAt(m, g, losers, i)
    ensures 0 < k <= i && LoserAt(m, g, losers, k)
    ensures forall j :: 0 < j < k ==> !LoserAt(m, g, losers, j)
  {
    k := 1;
    while !LoserAt(m, g, losers, k)
      invariant 0 < k <= i && forall j :: 0 < j < k ==> !LoserAt(m, g, losers, j)
      decreases i - k
    {
      k := k + 1;
    }
  }

  /** If the winner keeps its owner although a loser stands above it, it owns itself. */
  lemma UndetachedWinnerOnCycle(m: Owners, winner: nat, losers: set<nat>)
    requires Mergeable(m, winner, losers) && LoserAbove(m, winner, losers)
    ensures !IsForest(Survivors(m, winner, losers, false))
  {
    var s := Survivors(m, winner, losers, false);
    var i: nat :| 0 < i && LoserAt(m, winner, losers, i);
    var k := FirstLoser(m, winner, losers, i);
    SurvivorChain(m, winner, losers, winner, k - 1);
    AboveAdd(m, winner, k - 1, 1);
    AboveExists(m, winner, k - 1);
    var last := Above(m, winner, k - 1).value;
    if k > 1 { assert !LoserAt(m, winner, losers, k - 1); }
    assert last in s && s[last] == Some(winner);
    AboveAdd(s, winner, k - 1, 1);
    assert Above(s, winner, k) == Some(winner);
    assert IsAncestor(s, winner, winner);
    ForestIffNoCycle(s);
  }

  /** A merge leaves a forest exactly when no loser stands above the winner, or the
      nearest one stands within reach of the walk. */
  lemma MergeKeepsForestIff(m: Owners, winner: nat, losers: seq<nat>)
    requires Mergeable(m, winner, set l | l in losers)
    ensures var lost := set l | l in losers;
      IsForest(Merged(m, winner, losers)) <==>
        (LoserAbove(m, winner, lost) ==> LoserAboveWithin(m, winner, lost, WALK_LIMIT))
  {
    var lost := set l | l in losers;
    var detached := LoserAboveWithin(m, winner, lost, WALK_LIMIT);
    var s := Survivors(m, winner, lost, detached);
    MergedSurvivors(m, winner, losers);
    if LoserAbove(m, winner, lost) && !detached {
      UndetachedWinnerOnCycle(m, winner, lost);
    } else {
      var n: nat :| EndsWithin(m, winner, n);
      if detached {
        assert EndsWithin(s, winner, 1);
      } else {
        SurvivorChain(m, winner, lost, winner, n);
        assert EndsWithin(s, winner, n);
      }
      var p: nat :| EndsWithin(s, winner, p);
      forall g | g in s ensures Ends(s, g) {
        var k: nat :| EndsWithin(m, g, k);
        SurvivorEnds(m, winner, lost, detached, g, k, p);
      }
    }
  }

  /** With at most 101 groups on the winner's chain, a merge always leaves a forest. */
  lemma ShortChainMergeKeepsForest(m: Owners, winner: nat, losers: seq<nat>)
    requires Mergeable(m, winner, set l | l in losers) && EndsWithin(m, winner, WALK_LIMIT + 1)
    ensures IsForest(Merged(m, winner, losers))
  {
    var lost := set l | l in losers;
    if LoserAbove(m, winner, lost) {
      var i: nat :| 0 < i && LoserAt(m, winner, lost, i);
      if i > WALK_LIMIT { EndsMonotone(m, winner, WALK_LIMIT + 1, i); }
      assert LoserAboveWithin(m, winner, lost, WALK_LIMIT);
    }
    MergeKeepsForestIff(m, winner, losers);
  }

  /** What MergeGroups leaves of a forest. */
  lemma ForestAfterMerge(m: Owners, winner: nat, losers: seq<nat>)
    requires Mergeable(m, winner, set l | l in losers)
    ensures var lost := set l | l in losers;
      && (IsForest(Merged(m, winner, losers)) <==>
            (LoserAbove(m, winner, lost) ==> LoserAboveWithin(m, winner, lost, WALK_LIMIT)))
      && (EndsWithin(m, winner, WALK_LIMIT + 1) ==> IsForest(Merged(m, winner, losers)))
  {
    MergeKeepsForestIff(m, winner, losers);
    if EndsWithin(m, winner, WALK_LIMIT + 1) {
      ShortChainMergeKeepsForest(m, winner, losers);
    }
  }

  lemma TopIsLoserOutOfReach(n: nat, lost: set<nat>)
    requires n > WALK_LIMIT + 1 && lost == {1}
    ensures LoserAbove(Chain(n), n, lost) && !LoserAboveWithin(Chain(n), n, lost, WALK_LIMIT)
  {
    forall i: nat | 0 < i <= WALK_LIMIT ensures !LoserAt(Chain(n), n, lost, i) { ChainAbove(n, n, i); }
    ChainAbove(n, n, n - 1);
    assert LoserAt(Chain(n), n, lost, n - 1);
  }

  /** The bound is tight here too: merging the root of any chain of 102 groups or more
      into its bottom leaves an ownership cycle. */
  lemma LongChainMergeLeavesCycle(n: nat, losers: seq<nat>)
    requires n > WALK_LIMIT + 1 && losers == [1]
    ensures IsForest(Chain(n)) && !IsForest(Merged(Chain(n), n, losers))
  {
    ChainIsForest(n);
    var lost := set l | l in losers;
    assert lost == {1};
    TopIsLoserOutOfReach(n, lost);
    ChainAbove(n, n, 1);
    MergeKeepsForestIff(Chain(n), n, losers);
  }
}
