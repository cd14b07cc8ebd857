/** The order of a cross-entity result: the ORDER BY comparator of executeCrossEntity
    and the theory of stable sorting under it (application_context/mrql_context.go). */
module CrossEntityOrder {
  import opened Sequences

  datatype EntityKind = Resource | Note | Group

  /** One fetched row, reduced to what the merge looks at. `folded` is the
      lower-cased name; times are instants. */
  datatype Row = Row(id: nat, folded: string, created: int, updated: int)

  /** A row wrapped for the merge, with the index it has within its type's slice. */
  datatype Item = Item(kind: EntityKind, row: Row, index: nat)

  datatype SortField = ByName | ByCreated | ByUpdated | Unsortable(name: string)

  datatype OrderTerm = OrderTerm(field: SortField, ascending: bool)

  function CompareInt(a: int, b: int): int {
    if a < b then -1 else if a > b then 1 else 0
  }

  function CompareStrings(a: string, b: string): int {
    if a == [] then (if b == [] then 0 else -1)
    else if b == [] then 1
    else if a[0] != b[0] then (if a[0] < b[0] then -1 else 1)
    else CompareStrings(a[1..], b[1..])
  }

  function CompareField(field: SortField, a: Item, b: Item): int {
    match field
    case ByName => CompareStrings(a.row.folded, b.row.folded)
    case ByCreated => CompareInt(a.row.created, b.row.created)
    case ByUpdated => CompareInt(a.row.updated, b.row.updated)
    case Unsortable(_) => 0
  }

  /** The "less" callback handed to the stable sort: the first ORDER BY column that
      tells the two apart decides, and unsortable columns are passed over. */
  predicate Less(order: seq<OrderTerm>, a: Item, b: Item) {
    order != [] &&
    var cmp := CompareField(order[0].field, a, b);
    if cmp == 0 then Less(order[1..], a, b)
    else if order[0].ascending then cmp < 0
    else cmp > 0
  }

  /** a may stand before b. */
  predicate AtMost(order: seq<OrderTerm>, a: Item, b: Item) {
    !Less(order, b, a)
  }

  predicate Sorted(order: seq<OrderTerm>, s: seq<Item>) {
    forall i, j :: 0 <= i < j < |s| ==> AtMost(order, s[i], s[j])
  }

  // ---- the comparator is a strict weak order ----

  lemma {:induction false} CompareStringsLaws(a: string, b: string, c: string)
    ensures CompareStrings(a, b) == -CompareStrings(b, a)
    ensures CompareStrings(a, b) <= 0 && CompareStrings(b, c) <= 0 ==> CompareStrings(a, c) <= 0
    ensures CompareStrings(a, b) < 0 && CompareStrings(b, c) <= 0 ==> CompareStrings(a, c) < 0
    ensures CompareStrings(a, b) <= 0 && CompareStrings(b, c) < 0 ==> CompareStrings(a, c) < 0
    decreases |a| + |b| + |c|
  {
    if a != [] && b != [] && c != [] {
      CompareStringsLaws(a[1..], b[1..], c[1..]);
    } else if a != [] && b != [] {
      CompareStringsLaws(a[1..], b[1..], c);
    }
  }

  lemma CompareFieldLaws(f: SortField, a: Item, b: Item, c: Item)
    ensures CompareField(f, a, b) == -CompareField(f, b, a)
    ensures CompareField(f, a, b) <= 0 && CompareField(f, b, c) <= 0 ==> CompareField(f, a, c) <= 0
    ensures CompareField(f, a, b) < 0 && CompareField(f, b, c) <= 0 ==> CompareField(f, a, c) < 0
    ensures CompareField(f, a, b) <= 0 && CompareField(f, b, c) < 0 ==> CompareField(f, a, c) < 0
  {
    CompareStringsLaws(a.row.folded, b.row.folded, c.row.folded);
  }

  lemma {:induction false} AtMostTotal(order: seq<OrderTerm>, a: Item, b: Item)
    ensures AtMost(order, a, b) || AtMost(order, b, a)
  {
    if order != [] {
      CompareFieldLaws(order[0].field, a, b, a);
      AtMostTotal(order[1..], a, b);
    }
  }

  lemma {:induction false} AtMostTransitive(order: seq<OrderTerm>, a: Item, b: Item, c: Item)
    requires AtMost(order, a, b) && AtMost(order, b, c)
    ensures AtMost(order, a, c)
  {
    if order != [] {
      var f := order[0].field;
      CompareFieldLaws(f, a, b, c);
      CompareFieldLaws(f, c, b, a);
      if CompareField(f, a, b) == 0 && CompareField(f, b, c) == 0 {
        CompareFieldLaws(f, b, a, b);
        CompareFieldLaws(f, c, b, c);
        CompareFieldLaws(f, c, a, c);
        AtMostTransitive(order[1..], a, b, c);
      } else {
        CompareFieldLaws(f, b, a, b);
        CompareFieldLaws(f, b, c, b);
        CompareFieldLaws(f, a, c, a);
      }
    }
  }

  // ---- the order in terms of the columns ----

  lemma {:induction false} CompareStringsIsLex(a: string, b: string)
    ensures CompareStrings(a, b) < 0 <==> LexBelow(a, b)
    ensures CompareStrings(a, b) == 0 <==> a == b
  {
    if a == [] || b == [] || a[0] != b[0] {
      assert CompareStrings(a, b) < 0 ==> LexBelowAt(a, b, 0);
      forall k: nat | LexBelowAt(a, b, k) ensures k == 0 { PrefixHeads(a, b, k); }
    } else {
      CompareStringsIsLex(a[1..], b[1..]);
      LexBelowTail(a, b);
      assert a == [a[0]] + a[1..] && b == [b[0]] + b[1..];
    }
  }

  /** One column puts a strictly below b; an unsortable one never does. */
  ghost predicate Below(field: SortField, a: Row, b: Row) {
    match field
    case ByName => LexBelow(a.folded, b.folded)
    case ByCreated => a.created < b.created
    case ByUpdated => a.updated < b.updated
    case Unsortable(_) => false
  }

  predicate SameIn(field: SortField, a: Row, b: Row) {
    match field
    case ByName => a.folded == b.folded
    case ByCreated => a.created == b.created
    case ByUpdated => a.updated == b.updated
    case Unsortable(_) => true
  }

  /** The k-th column is the first sortable one in which the two differ, and in its stated
      direction it puts a first. */
  ghost predicate Precedes(order: seq<OrderTerm>, k: nat, a: Row, b: Row) {
    && k < |order| && (forall c :: 0 <= c < k ==> SameIn(order[c].field, a, b))
    && (if order[k].ascending then Below(order[k].field, a, b) else Below(order[k].field, b, a))
  }

  lemma CompareFieldIsBelow(field: SortField, a: Item, b: Item)
    ensures CompareField(field, a, b) < 0 <==> Below(field, a.row, b.row)
    ensures CompareField(field, a, b) > 0 <==> Below(field, b.row, a.row)
    ensures CompareField(field, a, b) == 0 <==> SameIn(field, a.row, b.row)
  {
    CompareFieldLaws(field, a, b, a);
    CompareStringsIsLex(a.row.folded, b.row.folded);
    CompareStringsIsLex(b.row.folded, a.row.folded);
    CompareStringsLaws(a.row.folded, b.row.folded, a.row.folded);
  }

  lemma {:induction false} LessIsPrecedes(order: seq<OrderTerm>, a: Item, b: Item)
    ensures Less(order, a, b) <==> exists k: nat :: Precedes(order, k, a.row, b.row)
  {
    if order != [] {
      CompareFieldIsBelow(order[0].field, a, b);
      if CompareField(order[0].field, a, b) == 0 {
        LessIsPrecedes(order[1..], a, b);
        PrecedesLater(order, a.row, b.row);
      } else {
        assert Less(order, a, b) ==> Precedes(order, 0, a.row, b.row);
      }
    }
  }

  lemma PrecedesLater(order: seq<OrderTerm>, a: Row, b: Row)
    requires order != [] && SameIn(order[0].field, a, b) && SameIn(order[0].field, b, a)
    requires !Below(order[0].field, a, b) && !Below(order[0].field, b, a)
    ensures (exists k: nat :: Precedes(order, k, a, b)) <==> (exists k: nat :: Precedes(order[1..], k, a, b))
  {
    if k: nat :| Precedes(order, k, a, b) {
      assert k > 0;
      assert Precedes(order[1..], k - 1, a, b);
    }
    if k: nat :| Precedes(order[1..], k, a, b) {
      assert forall c :: 0 < c < k + 1 ==> order[c] == order[1..][c - 1];
      assert Precedes(order, k + 1, a, b);
    }
  }

  /** No row stands behind one that the columns put after it. */
  ghost predicate InColumnOrder(order: seq<OrderTerm>, rows: seq<Row>) {
    forall i, j, k: nat :: 0 <= i < j < |rows| ==> !Precedes(order, k, rows[j], rows[i])
  }

  function RowsIn(items: seq<Item>): (rows: seq<Row>)
    ensures |rows| == |items| && forall i :: 0 <= i < |rows| ==> rows[i] == items[i].row
  {
    seq(|items|, i requires 0 <= i < |items| => items[i].row)
  }

  /** Sorted under the comparator is sorted in the columns: the first sortable one that
      differs decides, in its direction. */
  lemma SortedIsColumnOrder(order: seq<OrderTerm>, s: seq<Item>)
    ensures Sorted(order, s) <==> InColumnOrder(order, RowsIn(s))
  {
    forall i, j | 0 <= i < j < |s|
      ensures AtMost(order, s[i], s[j]) <==> forall k: nat :: !Precedes(order, k, s[j].row, s[i].row)
    {
      LessIsPrecedes(order, s[j], s[i]);
    }
  }

  /** With one column: non-decreasing in it, or non-increasing. */
  lemma OneColumnOrder(rows: seq<Row>, ascending: bool)
    ensures InColumnOrder([OrderTerm(ByCreated, ascending)], rows) <==>
      forall i, j :: 0 <= i < j < |rows| ==>
        if ascending then rows[i].created <= rows[j].created else rows[j].created <= rows[i].created
    ensures InColumnOrder([OrderTerm(ByUpdated, ascending)], rows) <==>
      forall i, j :: 0 <= i < j < |rows| ==>
        if ascending then rows[i].updated <= rows[j].updated else rows[j].updated <= rows[i].updated
    ensures InColumnOrder([OrderTerm(ByName, ascending)], rows) <==>
      forall i, j :: 0 <= i < j < |rows| ==>
        if ascending then !LexBelow(rows[j].folded, rows[i].folded) else !LexBelow(rows[i].folded, rows[j].folded)
  {
    OneColumn(ByCreated, rows, ascending);
    OneColumn(ByUpdated, rows, ascending);
    OneColumn(ByName, rows, ascending);
  }

  lemma OneColumn(field: SortField, rows: seq<Row>, ascending: bool)
    ensures InColumnOrder([OrderTerm(field, ascending)], rows) <==>
      forall i, j :: 0 <= i < j < |rows| ==>
        if ascending then !Below(field, rows[j], rows[i]) else !Below(field, rows[i], rows[j])
  {
    var order := [OrderTerm(field, ascending)];
    forall i, j | 0 <= i < j < |rows|
      ensures (exists k: nat :: Precedes(order, k, rows[j], rows[i])) <==>
        if ascending then Below(field, rows[j], rows[i]) else Below(field, rows[i], rows[j])
    {
      assert Precedes(order, 0, rows[j], rows[i]) <==>
        if ascending then Below(field, rows[j], rows[i]) else Below(field, rows[i], rows[j]);
    }
  }

  // ---- stable sorting ----

  /** Puts x in front of everything it may stand before. */
  function Insert(order: seq<OrderTerm>, x: Item, s: seq<Item>): seq<Item> {
    if s == [] || AtMost(order, x, s[0]) then [x] + s
    else [s[0]] + Insert(order, x, s[1..])
  }

  function StableSorted(order: seq<OrderTerm>, s: seq<Item>): seq<Item> {
    if s == [] then [] else Insert(order, s[0], StableSorted(order, s[1..]))
  }

  /** The subsequence of items that tie with x. */
  function Ties(order: seq<OrderTerm>, x: Item, s: seq<Item>): seq<Item> {
    if s == [] then []
    else if AtMost(order, x, s[0]) && AtMost(order, s[0], x) then [s[0]] + Ties(order, x, s[1..])
    else Ties(order, x, s[1..])
  }

  /** t is what a stable sort of s must return: sorted, and every class of tied items
      is the class it was in s, in the order it had there. */
  ghost predicate IsStableSortOf(order: seq<OrderTerm>, s: seq<Item>, t: seq<Item>) {
    Sorted(order, t) && forall x: Item :: Ties(order, x, t) == Ties(order, x, s)
  }

  lemma {:induction false} InsertMembers(order: seq<OrderTerm>, x: Item, s: seq<Item>)
    ensures forall y :: y in Insert(order, x, s) <==> y == x || y in s
  {
    if s != [] && !AtMost(order, x, s[0]) {
      InsertMembers(order, x, s[1..]);
      assert s == [s[0]] + s[1..];
    }
  }

  lemma {:induction false} InsertSorted(order: seq<OrderTerm>, x: Item, s: seq<Item>)
    requires Sorted(order, s)
    ensures Sorted(order, Insert(order, x, s))
  {
    var t := Insert(order, x, s);
    if s == [] {
    } else if AtMost(order, x, s[0]) {
      forall j | 0 <= j < |s| ensures AtMost(order, x, s[j]) {
        if j > 0 { AtMostTransitive(order, x, s[0], s[j]); }
      }
    } else {
      AtMostTotal(order, x, s[0]);
      InsertSorted(order, x, s[1..]);
      InsertMembers(order, x, s[1..]);
      var rest := Insert(order, x, s[1..]);
      forall j | 0 <= j < |rest| ensures AtMost(order, s[0], rest[j]) {
        assert rest[j] in rest;
        if rest[j] != x {
          assert rest[j] in s[1..];
        }
      }
    }
  }

  lemma {:induction false} InsertTies(order: seq<OrderTerm>, x: Item, s: seq<Item>, y: Item)
    ensures Ties(order, y, Insert(order, x, s)) == Ties(order, y, [x] + s)
  {
    assert ([x] + s)[1..] == s;
    if s != [] && !AtMost(order, x, s[0]) {
      var rest := Insert(order, x, s[1..]);
      assert ([s[0]] + rest)[1..] == rest;
      InsertTies(order, x, s[1..], y);
      assert ([x] + s[1..])[1..] == s[1..];
      // x and s[0] are told apart, so at most one of them ties with y
      if AtMost(order, y, x) && AtMost(order, s[0], y) && AtMost(order, x, y) && AtMost(order, y, s[0]) {
        AtMostTransitive(order, x, y, s[0]);
        assert false;
      }
    }
  }

  lemma {:induction false} TiesOfTail(order: seq<OrderTerm>, x: Item, s: seq<Item>, t: seq<Item>, y: Item)
    requires Ties(order, y, s) == Ties(order, y, t)
    ensures Ties(order, y, [x] + s) == Ties(order, y, [x] + t)
  {
    assert ([x] + s)[1..] == s && ([x] + t)[1..] == t;
  }

  /** The insertion sort above is a stable sort. */
  lemma {:induction false} StableSortedIsStable(order: seq<OrderTerm>, s: seq<Item>)
    ensures IsStableSortOf(order, s, StableSorted(order, s))
  {
    if s != [] {
      var rest := StableSorted(order, s[1..]);
      StableSortedIsStable(order, s[1..]);
      InsertSorted(order, s[0], rest);
      forall y: Item ensures Ties(order, y, StableSorted(order, s)) == Ties(order, y, s) {
        InsertTies(order, s[0], rest, y);
        TiesOfTail(order, s[0], rest, s[1..], y);
        assert s == [s[0]] + s[1..];
      }
    }
  }

  lemma {:induction false} TiesMember(order: seq<OrderTerm>, x: Item, s: seq<Item>)
    ensures x in s ==> x in Ties(order, x, s)
    ensures forall y :: y in Ties(order, x, s) ==> y in s && AtMost(order, x, y) && AtMost(order, y, x)
  {
    if s != [] {
      AtMostTotal(order, x, x);
      TiesMember(order, x, s[1..]);
      assert s == [s[0]] + s[1..];
    }
  }

  lemma SortedHeadLeast(order: seq<OrderTerm>, t: seq<Item>, y: Item)
    requires t != [] && Sorted(order, t) && y in t
    ensures AtMost(order, t[0], y)
  {
    AtMostTotal(order, t[0], t[0]);
    var j :| 0 <= j < |t| && t[j] == y;
    if j > 0 { assert AtMost(order, t[0], t[j]); }
  }

  lemma SameTiesSameHead(order: seq<OrderTerm>, t: seq<Item>, u: seq<Item>)
    requires Sorted(order, t) && Sorted(order, u) && t != []
    requires forall x: Item :: Ties(order, x, t) == Ties(order, x, u)
    ensures u != [] && t[0] == u[0]
  {
    var a := t[0];
    TiesMember(order, a, t);
    TiesMember(order, a, u);
    assert a in Ties(order, a, u) && a in u;
    var b := u[0];
    TiesMember(order, b, u);
    TiesMember(order, b, t);
    assert b in Ties(order, b, t) && b in t;
    SortedHeadLeast(order, t, b);
    SortedHeadLeast(order, u, a);
    AtMostTotal(order, a, a);
    assert Ties(order, a, t)[0] == a;
    assert Ties(order, a, u)[0] == b;
  }

  lemma TiesTail(order: seq<OrderTerm>, x: Item, s: seq<Item>)
    requires s != []
    ensures Ties(order, x, s[1..])
         == if AtMost(order, x, s[0]) && AtMost(order, s[0], x) then Ties(order, x, s)[1..] else Ties(order, x, s)
  {
  }

  /** There is only one stable sort of a sequence, so what follows about StableSorted
      holds of whatever algorithm the sort library uses. */
  lemma {:induction false} StableSortUnique(order: seq<OrderTerm>, t: seq<Item>, u: seq<Item>)
    requires Sorted(order, t) && Sorted(order, u)
    requires forall x: Item :: Ties(order, x, t) == Ties(order, x, u)
    ensures t == u
  {
    if t == [] {
      if u != [] { SameTiesSameHead(order, u, t); }
    } else {
      SameTiesSameHead(order, t, u);
      forall x: Item ensures Ties(order, x, t[1..]) == Ties(order, x, u[1..]) {
        TiesTail(order, x, t);
        TiesTail(order, x, u);
      }
      StableSortUnique(order, t[1..], u[1..]);
      assert t == [t[0]] + t[1..] && u == [u[0]] + u[1..];
    }
  }

  lemma StableSortIsStableSorted(order: seq<OrderTerm>, s: seq<Item>, t: seq<Item>)
    requires IsStableSortOf(order, s, t)
    ensures t == StableSorted(order, s)
  {
    StableSortedIsStable(order, s);
    StableSortUnique(order, t, StableSorted(order, s));
  }

  lemma {:induction false} SortedIsFixed(order: seq<OrderTerm>, s: seq<Item>)
    requires Sorted(order, s)
    ensures StableSorted(order, s) == s
  {
    if s != [] {
      SortedIsFixed(order, s[1..]);
      assert |s| > 1 ==> AtMost(order, s[0], s[1]);
      assert s == [s[0]] + s[1..];
    }
  }

  // ---- merging ----

  /** Two-way merge that takes from the left on a tie. */
  function Merge(order: seq<OrderTerm>, a: seq<Item>, b: seq<Item>): seq<Item>
    decreases |a| + |b|
  {
    if a == [] then b
    else if b == [] then a
    else if AtMost(order, a[0], b[0]) then [a[0]] + Merge(order, a[1..], b)
    else [b[0]] + Merge(order, a, b[1..])
  }

  lemma {:induction false} InsertMerge(order: seq<OrderTerm>, x: Item, a: seq<Item>, b: seq<Item>)
    ensures Insert(order, x, Merge(order, a, b)) == Merge(order, Insert(order, x, a), b)
    decreases |a| + |b|
  {
    if a == [] {
      if b != [] && !AtMost(order, x, b[0]) {
        InsertMerge(order, x, a, b[1..]);
      } else if b != [] {
        assert [x][1..] == [];
      }
    } else if b != [] {
      var m := Merge(order, a, b);
      if AtMost(order, a[0], b[0]) {
        if AtMost(order, x, a[0]) {
          AtMostTransitive(order, x, a[0], b[0]);
          assert ([x] + a)[1..] == a;
        } else {
          InsertMerge(order, x, a[1..], b);
          var i := Insert(order, x, a);
          assert i[1..] == Insert(order, x, a[1..]);
          assert m[1..] == Merge(order, a[1..], b);
        }
      } else {
        var i := Insert(order, x, a);
        assert m[1..] == Merge(order, a, b[1..]);
        if AtMost(order, x, b[0]) {
          if !AtMost(order, x, a[0]) {
            AtMostTotal(order, x, a[0]);
            AtMostTransitive(order, a[0], x, b[0]);
            assert false;
          }
          assert ([x] + a)[1..] == a;
        } else {
          InsertMerge(order, x, a, b[1..]);
        }
      }
    }
  }

  lemma {:induction false} SortConcat(order: seq<OrderTerm>, a: seq<Item>, b: seq<Item>)
    ensures StableSorted(order, a + b) == Merge(order, StableSorted(order, a), StableSorted(order, b))
  {
    if a == [] {
      assert a + b == b;
    } else {
      assert (a + b)[1..] == a[1..] + b;
      SortConcat(order, a[1..], b);
      InsertMerge(order, a[0], StableSorted(order, a[1..]), StableSorted(order, b));
    }
  }

  /** The first k items of a merge come from the first k items of its inputs. */
  lemma {:induction false} MergePrefix(order: seq<OrderTerm>, a: seq<Item>, b: seq<Item>, k: nat, n: nat, m: nat)
    requires k <= n && k <= m
    ensures Take(Merge(order, a, b), k) == Take(Merge(order, Take(a, n), Take(b, m)), k)
    decreases |a| + |b|
  {
    var ta, tb := Take(a, n), Take(b, m);
    if k == 0 {
      assert Take(Merge(order, a, b), k) == [] == Take(Merge(order, ta, tb), k);
    } else if a == [] {
      TakeTake(b, k, m);
    } else if b == [] {
      TakeTake(a, k, n);
    } else {
      assert ta[0] == a[0] && tb[0] == b[0];
      if AtMost(order, a[0], b[0]) {
        MergePrefix(order, a[1..], b, k - 1, n - 1, m);
        assert ta[1..] == Take(a[1..], n - 1);
        TakeCons(a[0], Merge(order, a[1..], b), k);
        TakeCons(a[0], Merge(order, ta[1..], tb), k);
      } else {
        MergePrefix(order, a, b[1..], k - 1, n, m - 1);
        assert tb[1..] == Take(b[1..], m - 1);
        TakeCons(b[0], Merge(order, a, b[1..]), k);
        TakeCons(b[0], Merge(order, ta, tb[1..]), k);
      }
    }
  }

  /** Cutting each of three sorted branches to its first k items does not change the
      first k items of the stable sort of their concatenation. */
  lemma SortPrefix3(order: seq<OrderTerm>, a: seq<Item>, b: seq<Item>, c: seq<Item>, k: nat)
    requires Sorted(order, a) && Sorted(order, b) && Sorted(order, c)
    ensures Take(StableSorted(order, a + b + c), k)
         == Take(StableSorted(order, Take(a, k) + Take(b, k) + Take(c, k)), k)
  {
    var ta, tb, tc := Take(a, k), Take(b, k), Take(c, k);
    SortedIsFixed(order, a); SortedIsFixed(order, b); SortedIsFixed(order, c);
    SortedIsFixed(order, ta); SortedIsFixed(order, tb); SortedIsFixed(order, tc);
    SortConcat(order, a, b); SortConcat(order, a + b, c);
    SortConcat(order, ta, tb); SortConcat(order, ta + tb, tc);
    var ab, tab := Merge(order, a, b), Merge(order, ta, tb);
    MergePrefix(order, a, b, k, k, k);
    MergePrefix(order, ab, c, k, k, k);
    MergePrefix(order, tab, tc, k, k, k);
    assert Take(tc, k) == tc;
  }
}
