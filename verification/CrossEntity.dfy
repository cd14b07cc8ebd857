/** Cross-entity MRQL queries: fetch a capped prefix per entity type, merge, stable-sort
    and cut out the window (executeCrossEntity in application_context/mrql_context.go). */
module CrossEntity {
  import opened Outcomes
  import opened ExecutionPolicy
  import opened CrossEntityOrder
  import opened Sequences

  /** What one entity type contributes. `all` is every row the branch's filter matches,
      in the order the database returns them. A branch whose translation fails is
      skipped; one that exceeds its deadline is dropped with a warning. */
  datatype Branch = Skipped | TimedOut | Failed | Rows(all: seq<Row>)

  datatype Branches = Branches(resources: Branch, notes: Branch, groups: Branch)

  datatype CrossError = Bounds(error: LimitError) | BranchFailed

  datatype CrossResult = CrossResult(
    resources: seq<Row>, notes: seq<Row>, groups: seq<Row>, timedOut: seq<EntityKind>)

  function BranchOf(b: Branches, kind: EntityKind): Branch {
    match kind
    case Resource => b.resources
    case Note => b.notes
    case Group => b.groups
  }

  function AllRows(b: Branch): seq<Row> {
    if b.Rows? then b.all else []
  }

  function BranchQuery(q: Query, cap: GoInt): Query {
    q.(limit := cap, offset := -1)
  }

  function Slice<T>(s: seq<T>, offset: nat, limit: nat): seq<T> {
    if offset >= |s| then [] else Take(s[offset..], limit)
  }

  /** The rows a branch query returns: OFFSET and LIMIT apply only when present. */
  function Fetch(b: Branch, q: Query): seq<Row> {
    var rows := AllRows(b);
    var from := if q.offset < 0 then rows else if q.offset > |rows| then [] else rows[q.offset..];
    if q.limit < 0 then from else Take(from, q.limit)
  }

  function Items(kind: EntityKind, rows: seq<Row>): (items: seq<Item>)
    ensures |items| == |rows|
    ensures forall i :: 0 <= i < |rows| ==> items[i] == Item(kind, rows[i], i)
  {
    seq(|rows|, i requires 0 <= i < |rows| => Item(kind, rows[i], i))
  }

  function UnionOf(rs: seq<Row>, ns: seq<Row>, gs: seq<Row>): seq<Item> {
    Items(Resource, rs) + Items(Note, ns) + Items(Group, gs)
  }

  /** The items merged when each branch is cut to its first cap rows. */
  function CappedUnion(b: Branches, cap: nat): seq<Item> {
    UnionOf(Take(AllRows(b.resources), cap), Take(AllRows(b.notes), cap), Take(AllRows(b.groups), cap))
  }

  /** The reference: every row of every contributing branch. */
  function FullUnion(b: Branches): seq<Item> {
    UnionOf(AllRows(b.resources), AllRows(b.notes), AllRows(b.groups))
  }

  ghost predicate BranchesSorted(order: seq<OrderTerm>, b: Branches) {
    forall kind :: Sorted(order, Items(kind, AllRows(BranchOf(b, kind))))
  }

  function RowsOf(kind: EntityKind, items: seq<Item>): seq<Row> {
    if items == [] then []
    else if items[0].kind == kind then [items[0].row] + RowsOf(kind, items[1..])
    else RowsOf(kind, items[1..])
  }

  predicate AnyFailed(b: Branches) {
    b.resources.Failed? || b.notes.Failed? || b.groups.Failed?
  }

  function TimedOutKinds(b: Branches): seq<EntityKind> {
    (if b.resources.TimedOut? then [Resource] else [])
      + (if b.notes.TimedOut? then [Note] else [])
      + (if b.groups.TimedOut? then [Group] else [])
  }

  lemma TakeItems(kind: EntityKind, rows: seq<Row>, k: nat)
    ensures Items(kind, Take(rows, k)) == Take(Items(kind, rows), k)
  {
  }

  lemma {:induction false} SortMembers(order: seq<OrderTerm>, s: seq<Item>)
    ensures |StableSorted(order, s)| == |s|
    ensures forall x :: x in StableSorted(order, s) ==> x in s
  {
    if s != [] {
      SortMembers(order, s[1..]);
      InsertMembers(order, s[0], StableSorted(order, s[1..]));
      InsertLength(order, s[0], StableSorted(order, s[1..]));
    }
  }

  lemma {:induction false} InsertLength(order: seq<OrderTerm>, x: Item, s: seq<Item>)
    ensures |Insert(order, x, s)| == |s| + 1
  {
    if s != [] && !AtMost(order, x, s[0]) { InsertLength(order, x, s[1..]); }
  }

  lemma {:induction false} RowsOfAppend(kind: EntityKind, s: seq<Item>, x: Item)
    ensures RowsOf(kind, s + [x]) == RowsOf(kind, s) + (if x.kind == kind then [x.row] else [])
  {
    if s == [] {
      assert [] + [x] == [x];
    } else {
      assert (s + [x])[1..] == s[1..] + [x];
      RowsOfAppend(kind, s[1..], x);
    }
  }

  lemma SliceOfTake<T>(s: seq<T>, t: seq<T>, offset: nat, limit: nat)
    requires Take(s, offset + limit) == Take(t, offset + limit)
    ensures Slice(s, offset, limit) == Slice(t, offset, limit)
  {
    assert Slice(s, offset, limit) == Slice(Take(s, offset + limit), offset, limit);
    assert Slice(t, offset, limit) == Slice(Take(t, offset + limit), offset, limit);
  }

  /** Cross-entity refinement: with every branch in the requested order, the window cut
      from the capped prefixes is the window cut from the sorted union of all rows. */
  lemma CappedWindowIsFullWindow(order: seq<OrderTerm>, b: Branches, offset: nat, limit: nat)
    requires BranchesSorted(order, b)
    ensures Slice(StableSorted(order, CappedUnion(b, offset + limit)), offset, limit)
         == Slice(StableSorted(order, FullUnion(b)), offset, limit)
  {
    var k := offset + limit;
    assert BranchOf(b, Resource) == b.resources && BranchOf(b, Note) == b.notes && BranchOf(b, Group) == b.groups;
    var r, n := Items(Resource, AllRows(b.resources)), Items(Note, AllRows(b.notes));
    var g := Items(Group, AllRows(b.groups));
    TakeItems(Resource, AllRows(b.resources), k);
    TakeItems(Note, AllRows(b.notes), k);
    TakeItems(Group, AllRows(b.groups), k);
    SortPrefix3(order, r, n, g, k);
    SliceOfTake(StableSorted(order, CappedUnion(b, k)), StableSorted(order, FullUnion(b)), offset, limit);
  }

  /** The premise is needed: ORDER BY an unsortable column before name leaves a branch
      out of comparator order, and the capped window then misses the first row. */
  lemma UnsortableLeadingColumnBreaksWindow()
    ensures exists order: seq<OrderTerm>, b: Branches ::
      Slice(StableSorted(order, CappedUnion(b, 1)), 0, 1) != Slice(StableSorted(order, FullUnion(b)), 0, 1)
  {
    var order := [OrderTerm(Unsortable("fileSize"), true), OrderTerm(ByName, true)];
    var r0, r1 := Row(1, "b", 0, 0), Row(2, "a", 0, 0);
    var b := Branches(Rows([r0, r1]), Skipped, Skipped);
    var i0, i1 := Item(Resource, r0, 0), Item(Resource, r1, 1);
    assert order[1..] == [OrderTerm(ByName, true)];
    assert CompareStrings("a", "b") < 0;
    assert Less(order[1..], i1, i0);
    assert Less(order, i1, i0) && !AtMost(order, i0, i1);
    assert CappedUnion(b, 1) == [i0];
    assert FullUnion(b) == [i0, i1];
    SortTwo(order, i0, i1);
    assert StableSorted(order, [i0])[0] == i0;
    assert StableSorted(order, [i0, i1])[0] == i1;
  }

  lemma SortTwo(order: seq<OrderTerm>, x: Item, y: Item)
    requires !AtMost(order, x, y)
    ensures StableSorted(order, [x]) == [x]
    ensures StableSorted(order, [x, y]) == [y, x]
  {
    assert [x][1..] == [] && [x, y][1..] == [y] && [y][1..] == [];
    assert StableSorted(order, [y]) == Insert(order, y, []) == [y];
    assert Insert(order, x, []) == [x];
  }

  /** The typed slices of r hold exactly the window's items, type by type, in order. */
  predicate Answers(r: CrossResult, window: seq<Item>) {
    r.resources == RowsOf(Resource, window) && r.notes == RowsOf(Note, window) && r.groups == RowsOf(Group, window)
  }

  /** The fetched rows of the three types wrapped for the merge, in branch order. */
  method CollectItems(resources: seq<Row>, notes: seq<Row>, groups: seq<Row>) returns (items: seq<Item>)
    ensures items == UnionOf(resources, notes, groups)
  {
    items := [];
    for i := 0 to |resources|
      invariant items == Items(Resource, resources)[..i]
    {
      items := items + [Item(Resource, resources[i], i)];
    }
    for i := 0 to |notes|
      invariant items == Items(Resource, resources) + Items(Note, notes)[..i]
    {
      items := items + [Item(Note, notes[i], i)];
    }
    for i := 0 to |groups|
      invariant items == Items(Resource, resources) + Items(Note, notes) + Items(Group, groups)[..i]
    {
      items := items + [Item(Group, groups[i], i)];
    }
  }

  /** The global OFFSET and LIMIT, applied to the sorted items. */
  method CutWindow(sorted: seq<Item>, offset: nat, limit: nat) returns (items: seq<Item>)
    ensures items == Slice(sorted, offset, limit)
  {
    items := sorted;
    if offset > 0 {
      if offset >= |items| {
        items := [];
      } else {
        items := items[offset..];
      }
    }
    if |items| > limit {
      items := items[..limit];
    }
  }

  ghost predicate Indexed(x: Item, resources: seq<Row>, notes: seq<Row>, groups: seq<Row>) {
    var rows := match x.kind case Resource => resources case Note => notes case Group => groups;
    x.index < |rows| && rows[x.index] == x.row
  }

  ghost predicate AllIndexed(items: seq<Item>, resources: seq<Row>, notes: seq<Row>, groups: seq<Row>) {
    forall i :: 0 <= i < |items| ==> Indexed(items[i], resources, notes, groups)
  }

  /** Splits the window back into typed slices, reading each row from its type's slice. */
  method SplitByType(items: seq<Item>, allResources: seq<Row>, allNotes: seq<Row>, allGroups: seq<Row>)
    returns (resources: seq<Row>, notes: seq<Row>, groups: seq<Row>)
    requires AllIndexed(items, allResources, allNotes, allGroups)
    ensures resources == RowsOf(Resource, items)
    ensures notes == RowsOf(Note, items)
    ensures groups == RowsOf(Group, items)
  {
    resources, notes, groups := [], [], [];
    for i := 0 to |items|
      invariant resources == RowsOf(Resource, items[..i])
      invariant notes == RowsOf(Note, items[..i])
      invariant groups == RowsOf(Group, items[..i])
    {
      var item := items[i];
      assert Indexed(items[i], allResources, allNotes, allGroups);
      assert items[..i + 1] == items[..i] + [item];
      RowsOfAppend(Resource, items[..i], item);
      RowsOfAppend(Note, items[..i], item);
      RowsOfAppend(Group, items[..i], item);
      match item.kind {
        case Resource => resources := resources + [allResources[item.index]];
        case Note => notes := notes + [allNotes[item.index]];
        case Group => groups := groups + [allGroups[item.index]];
      }
    }
    assert items[..|items|] == items;
  }

  lemma WindowIndexed(order: seq<OrderTerm>, r: seq<Row>, n: seq<Row>, g: seq<Row>, offset: nat, limit: nat)
    ensures AllIndexed(Slice(StableSorted(order, UnionOf(r, n, g)), offset, limit), r, n, g)
  {
    var union := UnionOf(r, n, g);
    var window := Slice(StableSorted(order, union), offset, limit);
    SortMembers(order, union);
    forall i | 0 <= i < |window| ensures Indexed(window[i], r, n, g) {
      assert window[i] in StableSorted(order, union);
      assert window[i] in union;
    }
  }

  /** Merging, sorting, cutting and splitting what the branches returned. */
  method MergeAndCut(order: seq<OrderTerm>, allResources: seq<Row>, allNotes: seq<Row>, allGroups: seq<Row>,
    timedOut: seq<EntityKind>, offset: nat, limit: nat) returns (r: CrossResult)
    ensures r.timedOut == timedOut
    ensures Answers(r, Slice(StableSorted(order, UnionOf(allResources, allNotes, allGroups)), offset, limit))
  {
    var items := CollectItems(allResources, allNotes, allGroups);
    WindowIndexed(order, allResources, allNotes, allGroups, offset, limit);
    items := CutWindow(StableSorted(order, items), offset, limit);
    var resources, notes, groups := SplitByType(items, allResources, allNotes, allGroups);
    r := CrossResult(resources, notes, groups, timedOut);
  }

  lemma FetchedUnion(b: Branches, q: Query, cap: nat)
    requires cap <= MAX_INT
    ensures UnionOf(Fetch(b.resources, BranchQuery(q, cap)), Fetch(b.notes, BranchQuery(q, cap)),
                    Fetch(b.groups, BranchQuery(q, cap))) == CappedUnion(b, cap)
  {
    FetchIsTake(b.resources, q, cap);
    FetchIsTake(b.notes, q, cap);
    FetchIsTake(b.groups, q, cap);
  }

  lemma FetchIsTake(b: Branch, q: Query, cap: nat)
    requires cap <= MAX_INT
    ensures Fetch(b, BranchQuery(q, cap)) == Take(AllRows(b), cap)
  {
  }

  // ---- what an answer is, in terms of rows and columns ----

  predicate IsItemOf(x: Item, rs: seq<Row>, ns: seq<Row>, gs: seq<Row>) {
    match x.kind
    case Resource => x.index < |rs| && x.row == rs[x.index]
    case Note => x.index < |ns| && x.row == ns[x.index]
    case Group => x.index < |gs| && x.row == gs[x.index]
  }

  /** Resources before notes before groups, each as fetched. */
  predicate Earlier(x: Item, y: Item) {
    match x.kind
    case Resource => y.kind != Resource || x.index < y.index
    case Note => y.kind == Group || (y.kind == Note && x.index < y.index)
    case Group => y.kind == Group && x.index < y.index
  }

  /** Every row of the three lists once, in the order of the columns, and rows the columns
      do not tell apart in the order they came. */
  ghost predicate IsColumnSort(order: seq<OrderTerm>, rs: seq<Row>, ns: seq<Row>, gs: seq<Row>, all: seq<Item>) {
    && |all| == |rs| + |ns| + |gs| && Distinct(all)
    && (forall x :: x in all <==> IsItemOf(x, rs, ns, gs))
    && InColumnOrder(order, RowsIn(all))
    && (forall i, j :: 0 <= i < j < |all| && (forall k: nat :: !Precedes(order, k, all[i].row, all[j].row)) ==>
          Earlier(all[i], all[j]))
  }

  /** The rows of one type among these items, in their order. */
  ghost predicate AreRowsOf(kind: EntityKind, items: seq<Item>, rows: seq<Row>) {
    exists at: seq<nat> :: SelectsKind(kind, items, rows, at)
  }

  ghost predicate SelectsKind(kind: EntityKind, items: seq<Item>, rows: seq<Row>, at: seq<nat>) {
    && |at| == |rows| && (forall i, j :: 0 <= i < j < |at| ==> at[i] < at[j])
    && (forall i :: 0 <= i < |at| ==> at[i] < |items| && items[at[i]].kind == kind && items[at[i]].row == rows[i])
    && (forall p :: 0 <= p < |items| && items[p].kind == kind ==> p in at)
  }

  /** The answer is the window from offset on, of at most limit items, of the column sort
      of these rows, type by type. */
  ghost predicate IsWindowOf(order: seq<OrderTerm>, rs: seq<Row>, ns: seq<Row>, gs: seq<Row>, r: CrossResult,
    offset: nat, limit: nat)
  {
    exists all: seq<Item> :: IsColumnSort(order, rs, ns, gs, all) && CutsOut(r, all, offset, limit)
  }

  ghost predicate CutsOut(r: CrossResult, all: seq<Item>, offset: nat, limit: nat) {
    var from := if offset < |all| then offset else |all|;
    var to := if offset + limit < |all| then offset + limit else |all|;
    && AreRowsOf(Resource, all[from..to], r.resources) && AreRowsOf(Note, all[from..to], r.notes)
    && AreRowsOf(Group, all[from..to], r.groups)
  }

  lemma {:induction false} RowsOfAreRows(kind: EntityKind, items: seq<Item>) returns (at: seq<nat>)
    ensures SelectsKind(kind, items, RowsOf(kind, items), at)
  {
    if items == [] {
      at := [];
    } else {
      var n := |items| - 1;
      assert items == items[..n] + [items[n]];
      RowsOfAppend(kind, items[..n], items[n]);
      at := RowsOfAreRows(kind, items[..n]);
      if items[n].kind == kind { at := at + [n]; }
    }
  }

  ghost predicate EarlierThroughout(s: seq<Item>) {
    forall i, j :: 0 <= i < j < |s| ==> Earlier(s[i], s[j])
  }

  ghost predicate TiesKeepOrder(order: seq<OrderTerm>, s: seq<Item>) {
    forall i, j :: 0 <= i < j < |s| && AtMost(order, s[j], s[i]) ==> Earlier(s[i], s[j])
  }

  lemma {:induction false} InsertKeepsTies(order: seq<OrderTerm>, x: Item, s: seq<Item>)
    requires Sorted(order, s) && TiesKeepOrder(order, s) && forall y :: y in s ==> Earlier(x, y)
    ensures TiesKeepOrder(order, Insert(order, x, s))
  {
    if s != [] && !AtMost(order, x, s[0]) {
      InsertKeepsTies(order, x, s[1..]);
      InsertMembers(order, x, s[1..]);
      var rest := Insert(order, x, s[1..]);
      assert forall j :: 0 <= j < |rest| ==> rest[j] in rest;
      forall j | 0 <= j < |rest| && AtMost(order, rest[j], s[0]) ensures Earlier(s[0], rest[j]) {
        if rest[j] != x {
          var i :| 0 <= i < |s[1..]| && s[1..][i] == rest[j];
          assert s[i + 1] == rest[j];
        }
      }
    } else {
      assert forall j :: 0 <= j < |s| ==> s[j] in s;
    }
  }

  lemma {:induction false} SortKeepsTies(order: seq<OrderTerm>, s: seq<Item>)
    requires EarlierThroughout(s)
    ensures TiesKeepOrder(order, StableSorted(order, s))
  {
    if s != [] {
      SortKeepsTies(order, s[1..]);
      SortMembers(order, s[1..]);
      StableSortedIsStable(order, s[1..]);
      InsertKeepsTies(order, s[0], StableSorted(order, s[1..]));
    }
  }

  lemma {:induction false} SortHasAll(order: seq<OrderTerm>, s: seq<Item>)
    ensures forall x :: x in StableSorted(order, s) <==> x in s
  {
    if s != [] {
      SortHasAll(order, s[1..]);
      InsertMembers(order, s[0], StableSorted(order, s[1..]));
      assert forall x :: x in s <==> x == s[0] || x in s[1..];
    }
  }

  lemma {:induction false} InsertDistinct(order: seq<OrderTerm>, x: Item, s: seq<Item>)
    requires Distinct(s) && x !in s
    ensures Distinct(Insert(order, x, s))
  {
    if s != [] && !AtMost(order, x, s[0]) {
      InsertDistinct(order, x, s[1..]);
      InsertMembers(order, x, s[1..]);
      var rest := Insert(order, x, s[1..]);
      assert s[0] !in rest;
    }
  }

  lemma {:induction false} SortDistinct(order: seq<OrderTerm>, s: seq<Item>)
    requires Distinct(s)
    ensures Distinct(StableSorted(order, s))
  {
    if s != [] {
      SortDistinct(order, s[1..]);
      SortHasAll(order, s[1..]);
      InsertDistinct(order, s[0], StableSorted(order, s[1..]));
    }
  }

  lemma UnionHasAll(rs: seq<Row>, ns: seq<Row>, gs: seq<Row>)
    ensures EarlierThroughout(UnionOf(rs, ns, gs)) && Distinct(UnionOf(rs, ns, gs))
    ensures forall x :: x in UnionOf(rs, ns, gs) <==> IsItemOf(x, rs, ns, gs)
  {
    var union := UnionOf(rs, ns, gs);
    forall x | IsItemOf(x, rs, ns, gs) ensures x in union {
      var at := match x.kind
        case Resource => x.index
        case Note => |rs| + x.index
        case Group => |rs| + |ns| + x.index;
      assert union[at] == x;
    }
  }

  /** Whatever the three lists, the stable sort of their union is their column sort. */
  lemma UnionSortIsColumnSort(order: seq<OrderTerm>, rs: seq<Row>, ns: seq<Row>, gs: seq<Row>)
    ensures IsColumnSort(order, rs, ns, gs, StableSorted(order, UnionOf(rs, ns, gs)))
  {
    var union := UnionOf(rs, ns, gs);
    var all := StableSorted(order, union);
    UnionHasAll(rs, ns, gs);
    SortMembers(order, union);
    SortHasAll(order, union);
    SortDistinct(order, union);
    SortKeepsTies(order, union);
    StableSortedIsStable(order, union);
    SortedIsColumnOrder(order, all);
    forall i, j | 0 <= i < j < |all| && (forall k: nat :: !Precedes(order, k, all[i].row, all[j].row))
      ensures Earlier(all[i], all[j])
    {
      LessIsPrecedes(order, all[i], all[j]);
    }
  }

  lemma AnswersIsWindow(order: seq<OrderTerm>, rs: seq<Row>, ns: seq<Row>, gs: seq<Row>, union: seq<Item>,
    r: CrossResult, offset: nat, limit: nat)
    requires union == UnionOf(rs, ns, gs) && Answers(r, Slice(StableSorted(order, union), offset, limit))
    ensures IsWindowOf(order, rs, ns, gs, r, offset, limit)
  {
    var all := StableSorted(order, union);
    UnionSortIsColumnSort(order, rs, ns, gs);
    CutsOutAnswer(r, all, offset, limit);
  }

  lemma CutsOutAnswer(r: CrossResult, all: seq<Item>, offset: nat, limit: nat)
    requires Answers(r, Slice(all, offset, limit))
    ensures CutsOut(r, all, offset, limit)
  {
    var window := Slice(all, offset, limit);
    var from := if offset < |all| then offset else |all|;
    var to := if offset + limit < |all| then offset + limit else |all|;
    assert window == all[from..to];
    var a := RowsOfAreRows(Resource, window);
    var b := RowsOfAreRows(Note, window);
    var c := RowsOfAreRows(Group, window);
  }

  /** Per type and in global order, the requested window of the stable sort of everything
      that was fetched; with the branches in order, of everything there is. */
  ghost predicate IsAnswer(r: CrossResult, order: seq<OrderTerm>, b: Branches, offset: nat, limit: nat) {
    && Answers(r, Slice(StableSorted(order, CappedUnion(b, offset + limit)), offset, limit))
    && (BranchesSorted(order, b) ==> Answers(r, Slice(StableSorted(order, FullUnion(b)), offset, limit)))
  }

  function Firsts(rows: seq<Row>, cap: nat): seq<Row> {
    if cap < |rows| then rows[..cap] else rows
  }

  /** In rows and columns: the window of the first offset + limit rows of each branch, and
      with the branches in order, of all their rows. A branch that is skipped or timed out
      contributes none. */
  ghost predicate IsAnswerInColumns(r: CrossResult, order: seq<OrderTerm>, b: Branches, offset: nat, limit: nat) {
    var rs := if b.resources.Rows? then b.resources.all else [];
    var ns := if b.notes.Rows? then b.notes.all else [];
    var gs := if b.groups.Rows? then b.groups.all else [];
    var cap := offset + limit;
    && IsWindowOf(order, Firsts(rs, cap), Firsts(ns, cap), Firsts(gs, cap), r, offset, limit)
    && (BranchesSorted(order, b) ==> IsWindowOf(order, rs, ns, gs, r, offset, limit))
  }

  lemma AnswerInColumns(r: CrossResult, order: seq<OrderTerm>, b: Branches, offset: nat, limit: nat)
    requires IsAnswer(r, order, b, offset, limit)
    ensures IsAnswerInColumns(r, order, b, offset, limit)
  {
    var rs, ns, gs := AllRows(b.resources), AllRows(b.notes), AllRows(b.groups);
    var cap := offset + limit;
    TakeIsFirsts(rs, cap);
    TakeIsFirsts(ns, cap);
    TakeIsFirsts(gs, cap);
    AnswersIsWindow(order, Take(rs, cap), Take(ns, cap), Take(gs, cap), CappedUnion(b, cap), r, offset, limit);
    if BranchesSorted(order, b) {
      AnswersIsWindow(order, rs, ns, gs, FullUnion(b), r, offset, limit);
    }
  }

  lemma TakeIsFirsts(rows: seq<Row>, cap: nat)
    ensures Take(rows, cap) == Firsts(rows, cap)
  {
  }

  lemma FetchedAnswer(r: CrossResult, order: seq<OrderTerm>, b: Branches, q: Query, offset: nat, limit: nat, cap: GoInt)
    requires cap == offset + limit
    requires Answers(r, Slice(StableSorted(order, UnionOf(Fetch(b.resources, BranchQuery(q, cap)),
               Fetch(b.notes, BranchQuery(q, cap)), Fetch(b.groups, BranchQuery(q, cap)))), offset, limit))
    ensures IsAnswer(r, order, b, offset, limit)
  {
    FetchedUnion(b, q, cap);
    if BranchesSorted(order, b) {
      CappedWindowIsFullWindow(order, b, offset, limit);
    }
  }

  predicate TimedOutExactly(timedOut: seq<EntityKind>, b: Branches) {
    && (Resource in timedOut <==> b.resources.TimedOut?) && (Note in timedOut <==> b.notes.TimedOut?)
    && (Group in timedOut <==> b.groups.TimedOut?) && Distinct(timedOut)
  }

  lemma TimedOutKindsAre(b: Branches)
    ensures TimedOutExactly(TimedOutKinds(b), b)
  {
    var r := if b.resources.TimedOut? then [Resource] else [];
    var n := if b.notes.TimedOut? then [Note] else [];
    var g := if b.groups.TimedOut? then [Group] else [];
    assert TimedOutKinds(b) == r + n + g;
    assert forall kind :: kind in r + n + g <==> kind in r || kind in n || kind in g;
  }

  /** The three branches, capped, merged and cut. */
  method RunBranches(q: Query, order: seq<OrderTerm>, b: Branches, offset: nat, limit: nat, cap: GoInt)
    returns (r: Result<CrossResult, CrossError>)
    requires cap == offset + limit
    ensures r == Err(BranchFailed) || r.Ok?
    ensures r.Err? <==> b.resources.Failed? || b.notes.Failed? || b.groups.Failed?
    ensures r.Ok? ==> TimedOutExactly(r.value.timedOut, b)
    ensures r.Ok? ==> IsAnswer(r.value, order, b, offset, limit)
  {
    var branch := BranchQuery(q, cap);
    var allResources := Fetch(b.resources, branch);
    var allNotes := Fetch(b.notes, branch);
    var allGroups := Fetch(b.groups, branch);
    if AnyFailed(b) {
      return Err(BranchFailed);
    }
    var answer := MergeAndCut(order, allResources, allNotes, allGroups, TimedOutKinds(b), offset, limit);
    TimedOutKindsAre(b);
    FetchedAnswer(answer, order, b, q, offset, limit, cap);
    r := Ok(answer);
  }

  /** Runs a cross-entity query: what it refuses, and what it answers. */
  method ExecuteCrossEntity(q: Query, order: seq<OrderTerm>, defaultLimit: GoInt, policy: Policy, b: Branches)
    returns (r: Result<CrossResult, CrossError>)
    requires defaultLimit > 0 && policy.maxLimit >= 0
    ensures CrossEntityWindow(q, defaultLimit, policy).Err? ==>
      r == Err(Bounds(CrossEntityWindow(q, defaultLimit, policy).error))
    ensures CrossEntityWindow(q, defaultLimit, policy).Ok? ==>
      && (r == Err(BranchFailed) || r.Ok?)
      && (r.Err? <==> b.resources.Failed? || b.notes.Failed? || b.groups.Failed?)
    ensures r.Ok? ==>
      var w := CrossEntityWindow(q, defaultLimit, policy).value;
      && TimedOutExactly(r.value.timedOut, b)
      && IsAnswer(r.value, order, b, w.offset, w.limit)
      && IsAnswerInColumns(r.value, order, b, w.offset, w.limit)
  {
    var window := CrossEntityWindow(q, defaultLimit, policy);
    if window.Err? {
      return Err(Bounds(window.error));
    }
    var w := window.value;
    r := RunBranches(q, order, b, w.offset, w.limit, w.perEntityCap);
    if r.Ok? {
      AnswerInColumns(r.value, order, b, w.offset, w.limit);
    }
  }

  // ---- pages ----

  /** The items ExecuteCrossEntity answers a resolved query with. */
  function WindowItems(q: Query, order: seq<OrderTerm>, defaultLimit: GoInt, policy: Policy, b: Branches): seq<Item>
    requires defaultLimit > 0 && policy.maxLimit >= 0
  {
    var w := CrossEntityWindow(q, defaultLimit, policy);
    if w.Err? then []
    else Slice(StableSorted(order, CappedUnion(b, w.value.perEntityCap)), w.value.offset, w.value.limit)
  }

  /** What page p of size s shows; nothing when the request is refused. */
  function PageItems(q: Query, s: GoInt, p: GoInt, order: seq<OrderTerm>, defaultLimit: GoInt,
    policy: Policy, b: Branches): seq<Item>
    requires defaultLimit > 0 && 0 <= policy.maxLimit && 0 <= policy.maxOffset
  {
    var page := ResolveRequest(q, s, p, defaultLimit, policy);
    if page.Ok? then WindowItems(page.value, order, defaultLimit, policy, b) else []
  }

  /** Pages 1 to n of size s. */
  function Pages(q: Query, s: GoInt, n: nat, order: seq<OrderTerm>, defaultLimit: GoInt,
    policy: Policy, b: Branches): seq<seq<Item>>
    requires defaultLimit > 0 && 0 <= policy.maxLimit && 0 <= policy.maxOffset
    requires n <= MAX_INT
  {
    seq(n, i requires 0 <= i < n => PageItems(q, s, i + 1, order, defaultLimit, policy, b))
  }

  function Join(pages: seq<seq<Item>>): seq<Item> {
    if pages == [] then [] else Join(pages[..|pages| - 1]) + pages[|pages| - 1]
  }

  lemma TakeThenSlice<T>(s: seq<T>, k: nat, size: nat)
    ensures Take(s, k) + Slice(s, k, size) == Take(s, k + size)
  {
  }

  /** One accepted page is its slice of the sorted union of all rows. */
  lemma PageIsSlice(q: Query, s: GoInt, p: GoInt, order: seq<OrderTerm>, defaultLimit: GoInt,
    policy: Policy, b: Branches)
    requires defaultLimit > 0 && 0 <= policy.maxLimit && 0 <= policy.maxOffset
    requires policy.maxLimit + policy.maxOffset <= MAX_INT
    requires s > 0 && p >= 1 && q.bucketLimit <= MAX_BUCKETS
    requires ResolveRequest(q, s, p, defaultLimit, policy).Ok?
    requires BranchesSorted(order, b)
    ensures 0 <= (p - 1) * s
    ensures WindowItems(ResolveRequest(q, s, p, defaultLimit, policy).value, order, defaultLimit, policy, b)
         == Slice(StableSorted(order, FullUnion(b)), (p - 1) * s, s)
  {
    var page := ResolveRequest(q, s, p, defaultLimit, policy).value;
    PageRequest(q, s, p, defaultLimit, policy);
    MulMonotone(0, p - 1, s);
    WindowRefusedOnlyByBounds(page, defaultLimit, policy);
    CappedWindowIsFullWindow(order, b, (p - 1) * s, s);
  }

  /** Consecutive slices laid end to end. */
  lemma {:induction false} JoinSlices(pages: seq<seq<Item>>, all: seq<Item>, s: nat)
    requires forall i: nat :: i < |pages| ==> pages[i] == Slice(all, i * s, s)
    ensures Join(pages) == Take(all, |pages| * s)
  {
    if pages != [] {
      var n := |pages| - 1;
      JoinSlices(pages[..n], all, s);
      OneMore(n, s);
      TakeThenSlice(all, n * s, s);
    }
  }

  lemma PageAt(q: Query, s: GoInt, i: nat, order: seq<OrderTerm>, defaultLimit: GoInt, policy: Policy, b: Branches)
    requires defaultLimit > 0 && 0 <= policy.maxLimit && 0 <= policy.maxOffset
    requires policy.maxLimit + policy.maxOffset <= MAX_INT
    requires s > 0 && i < MAX_INT && q.bucketLimit <= MAX_BUCKETS
    requires ResolveRequest(q, s, i + 1, defaultLimit, policy).Ok?
    requires BranchesSorted(order, b)
    ensures 0 <= i * s
    ensures PageItems(q, s, i + 1, order, defaultLimit, policy, b)
         == Slice(StableSorted(order, FullUnion(b)), i * s, s)
  {
    PageIsSlice(q, s, i + 1, order, defaultLimit, policy, b);
  }

  lemma EachPageIsSlice(q: Query, s: GoInt, n: nat, order: seq<OrderTerm>, defaultLimit: GoInt,
    policy: Policy, b: Branches)
    requires defaultLimit > 0 && 0 <= policy.maxLimit && 0 <= policy.maxOffset
    requires policy.maxLimit + policy.maxOffset <= MAX_INT
    requires s > 0 && n <= MAX_INT && q.bucketLimit <= MAX_BUCKETS
    requires forall p: GoInt :: 1 <= p <= n ==> ResolveRequest(q, s, p, defaultLimit, policy).Ok?
    requires BranchesSorted(order, b)
    ensures forall i: nat :: i < n ==>
      Pages(q, s, n, order, defaultLimit, policy, b)[i] == Slice(StableSorted(order, FullUnion(b)), i * s, s)
  {
    forall i: nat | i < n
      ensures Pages(q, s, n, order, defaultLimit, policy, b)[i] == Slice(StableSorted(order, FullUnion(b)), i * s, s)
    {
      PageAt(q, s, i, order, defaultLimit, policy, b);
    }
  }

  /** Accepted pages 1 to n of size s are, laid end to end, the first n*s rows of the
      sorted union: nothing is skipped and nothing is shown twice. */
  lemma PagesCoverThePrefix(q: Query, s: GoInt, n: nat, order: seq<OrderTerm>,
        defaultLimit: GoInt, policy: Policy, b: Branches)
    requires defaultLimit > 0 && 0 <= policy.maxLimit && 0 <= policy.maxOffset
    requires policy.maxLimit + policy.maxOffset <= MAX_INT
    requires s > 0 && n <= MAX_INT && q.bucketLimit <= MAX_BUCKETS
    requires forall p: GoInt :: 1 <= p <= n ==> ResolveRequest(q, s, p, defaultLimit, policy).Ok?
    requires BranchesSorted(order, b)
    ensures 0 <= n * s
    ensures Join(Pages(q, s, n, order, defaultLimit, policy, b)) == Take(StableSorted(order, FullUnion(b)), n * s)
  {
    var pages, all := Pages(q, s, n, order, defaultLimit, policy, b), StableSorted(order, FullUnion(b));
    EachPageIsSlice(q, s, n, order, defaultLimit, policy, b);
    JoinSlices(pages, all, s);
    MulMonotone(0, n, s);
  }
}
