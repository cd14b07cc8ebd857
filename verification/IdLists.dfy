/** Ascending order of id lists, as sort.Slice leaves them. */
module IdLists {
  import opened Sequences

  predicate Ascending(ids: seq<nat>) {
    forall i, j :: 0 <= i < j < |ids| ==> ids[i] <= ids[j]
  }

  predicate StrictlyAscending(ids: seq<nat>) {
    forall i, j :: 0 <= i < j < |ids| ==> ids[i] < ids[j]
  }

  function InsertId(x: nat, ids: seq<nat>): seq<nat> {
    if ids == [] || x <= ids[0] then [x] + ids else [ids[0]] + InsertId(x, ids[1..])
  }

  function SortIds(ids: seq<nat>): seq<nat> {
    if ids == [] then [] else InsertId(ids[0], SortIds(ids[1..]))
  }

  lemma {:induction false} InsertIdPermutes(x: nat, ids: seq<nat>)
    ensures multiset(InsertId(x, ids)) == multiset(ids) + multiset{x}
  {
    if ids != [] && x > ids[0] {
      InsertIdPermutes(x, ids[1..]);
      assert ids == [ids[0]] + ids[1..];
    }
  }

  lemma {:induction false} InsertIdSorts(x: nat, ids: seq<nat>)
    requires Ascending(ids)
    ensures Ascending(InsertId(x, ids))
  {
    if ids != [] && x > ids[0] {
      InsertIdSorts(x, ids[1..]);
      var rest := InsertId(x, ids[1..]);
      InsertIdPermutes(x, ids[1..]);
      forall j | 0 <= j < |rest| ensures ids[0] <= rest[j] {
        assert rest[j] in multiset(rest);
        assert rest[j] == x || rest[j] in ids[1..];
      }
    }
  }

  /** Sorting is an ascending permutation. */
  lemma {:induction false} SortIdsSorts(ids: seq<nat>)
    ensures Ascending(SortIds(ids))
    ensures multiset(SortIds(ids)) == multiset(ids)
  {
    if ids != [] {
      SortIdsSorts(ids[1..]);
      InsertIdSorts(ids[0], SortIds(ids[1..]));
      InsertIdPermutes(ids[0], SortIds(ids[1..]));
      assert ids == [ids[0]] + ids[1..];
    }
  }

  lemma DistinctTail(ids: seq<nat>)
    requires ids != []
    ensures Distinct(ids) <==> ids[0] !in ids[1..] && Distinct(ids[1..])
  {
    var rest := ids[1..];
    assert forall i :: 0 <= i < |rest| ==> rest[i] == ids[i + 1];
    assert forall i :: 0 < i < |ids| ==> ids[i] == rest[i - 1];
  }

  lemma {:induction false} DistinctCounts(ids: seq<nat>)
    ensures Distinct(ids) <==> forall x :: x in ids ==> multiset(ids)[x] == 1
  {
    if ids != [] {
      var rest := ids[1..];
      DistinctTail(ids);
      DistinctCounts(rest);
      assert ids == [ids[0]] + rest;
      assert multiset(ids) == multiset{ids[0]} + multiset(rest);
      assert multiset(ids)[ids[0]] == 1 + multiset(rest)[ids[0]];
      assert forall x :: x in rest ==> x in ids;
      assert forall x :: x in ids ==> x == ids[0] || x in rest;
    }
  }

  /** Whether a list repeats an id does not depend on its order. */
  lemma DistinctPermutation(a: seq<nat>, b: seq<nat>)
    requires multiset(a) == multiset(b)
    ensures Distinct(a) <==> Distinct(b)
  {
    DistinctCounts(a);
    DistinctCounts(b);
    assert forall x :: x in a <==> x in multiset(a);
    assert forall x :: x in b <==> x in multiset(b);
  }
}
