/** Ownership chains of groups: the owner_id column as a finite map, and when following
    it upwards always ends. */
module OwnershipChains {
  import opened Outcomes

  /** Each existing group and its owner, if it has one. */
  type Owners = map<nat, Option<nat>>

  /** The group n steps above g, or None when the chain has ended before. */
  function Above(m: Owners, g: nat, n: nat): Option<nat>
    decreases n
  {
    if n == 0 then Some(g)
    else if g !in m || m[g].None? then None
    else Above(m, m[g].value, n - 1)
  }

  /** The chain that starts at g has at most n groups. */
  predicate EndsWithin(m: Owners, g: nat, n: nat) {
    Above(m, g, n).None?
  }

  ghost predicate Ends(m: Owners, g: nat) {
    exists n: nat :: EndsWithin(m, g, n)
  }

  ghost predicate NonDangling(m: Owners) {
    forall g :: g in m && m[g].Some? ==> m[g].value in m
  }

  /** Ownership is a forest: owners exist, and every chain ends in a root. */
  ghost predicate IsForest(m: Owners) {
    NonDangling(m) && forall g :: g in m ==> Ends(m, g)
  }

  /** a stands somewhere above g. */
  ghost predicate IsAncestor(m: Owners, a: nat, g: nat) {
    exists i: nat :: i > 0 && Above(m, g, i) == Some(a)
  }

  ghost predicate IsAncestorWithin(m: Owners, a: nat, g: nat, steps: nat) {
    exists i: nat :: 0 < i <= steps && Above(m, g, i) == Some(a)
  }

  lemma {:induction false} AboveAdd(m: Owners, g: nat, i: nat, j: nat)
    ensures Above(m, g, i + j)
         == if Above(m, g, i).None? then None else Above(m, Above(m, g, i).value, j)
    decreases i
  {
    if i > 0 && g in m && m[g].Some? {
      AboveAdd(m, m[g].value, i - 1, j);
    }
  }

  lemma EndsMonotone(m: Owners, g: nat, n: nat, k: nat)
    requires EndsWithin(m, g, n) && n <= k
    ensures EndsWithin(m, g, k)
  {
    AboveAdd(m, g, n, k - n);
  }

  lemma {:induction false} AboveExists(m: Owners, g: nat, n: nat)
    requires NonDangling(m) && g in m
    ensures Above(m, g, n).Some? ==> Above(m, g, n).value in m
    decreases n
  {
    if n > 0 && m[g].Some? {
      AboveExists(m, m[g].value, n - 1);
    }
  }

  /** A chain that ends never meets its own start again. */
  lemma {:induction false} EndsNoCycle(m: Owners, g: nat, n: nat, k: nat)
    requires EndsWithin(m, g, n) && k > 0
    ensures Above(m, g, k) != Some(g)
    decreases n
  {
    if Above(m, g, k) == Some(g) {
      if n >= k {
        AboveAdd(m, g, k, n - k);
        EndsNoCycle(m, g, n - k, k);
      } else {
        EndsMonotone(m, g, n, k);
      }
    }
  }

  /** Distinct places on a chain that ends hold distinct groups. */
  lemma EndsDistinct(m: Owners, g: nat, i: nat, j: nat)
    requires Ends(m, g) && i < j && Above(m, g, i).Some?
    ensures Above(m, g, j) != Above(m, g, i)
  {
    var n: nat :| EndsWithin(m, g, n);
    var a := Above(m, g, i).value;
    AboveAdd(m, g, i, j - i);
    AboveAdd(m, g, i, n);
    EndsMonotone(m, g, n, i + n);
    EndsNoCycle(m, a, n, j - i);
  }

  /** The first k groups of g's chain, as a set. */
  ghost function Visited(m: Owners, g: nat, k: nat): set<nat> {
    if k == 0 then {}
    else Visited(m, g, k - 1) + (if Above(m, g, k - 1).Some? then {Above(m, g, k - 1).value} else {})
  }

  lemma {:induction false} VisitedIndex(m: Owners, g: nat, k: nat, x: nat) returns (i: nat)
    requires x in Visited(m, g, k)
    ensures i < k && Above(m, g, i) == Some(x)
  {
    if Above(m, g, k - 1) == Some(x) {
      i := k - 1;
    } else {
      i := VisitedIndex(m, g, k - 1, x);
    }
  }

  /** Pigeonhole: if no group is its own ancestor, a chain is never longer than the
      number of groups. */
  lemma {:induction false} NoCycleEndsFrom(m: Owners, g: nat, k: nat)
    requires NonDangling(m) && g in m && k <= |m|
    requires forall a, i :: a in m && i > 0 ==> Above(m, a, i) != Some(a)
    requires Visited(m, g, k) <= m.Keys && |Visited(m, g, k)| == k
    ensures EndsWithin(m, g, |m|)
    decreases |m| - k
  {
    if Above(m, g, k).None? {
      EndsMonotone(m, g, k, |m|);
    } else {
      var c := Above(m, g, k).value;
      AboveExists(m, g, k);
      if c in Visited(m, g, k) {
        var i := VisitedIndex(m, g, k, c);
        AboveAdd(m, g, i, k - i);
        assert false;
      }
      SubsetSize(Visited(m, g, k) + {c}, m.Keys);
      NoCycleEndsFrom(m, g, k + 1);
    }
  }

  lemma {:induction false} SubsetSize(a: set<nat>, b: set<nat>)
    requires a <= b
    ensures |a| <= |b|
  {
    if a != {} {
      var x :| x in a;
      SubsetSize(a - {x}, b - {x});
    }
  }

  /** A forest is exactly a non-dangling ownership in which no group is its own ancestor. */
  lemma ForestIffNoCycle(m: Owners)
    ensures IsForest(m) <==> NonDangling(m) && forall g :: g in m ==> !IsAncestor(m, g, g)
  {
    if IsForest(m) {
      forall g | g in m ensures !IsAncestor(m, g, g) {
        var n: nat :| EndsWithin(m, g, n);
        forall i | i > 0 ensures Above(m, g, i) != Some(g) { EndsNoCycle(m, g, n, i); }
      }
    } else if NonDangling(m) && forall g :: g in m ==> !IsAncestor(m, g, g) {
      forall g | g in m ensures Ends(m, g) {
        NoCycleEndsFrom(m, g, 0);
      }
    }
  }
}
