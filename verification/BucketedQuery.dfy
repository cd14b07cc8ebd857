/** Bucketed GROUP BY queries and their resumable cursor (executeBucketedQuery in
    application_context/mrql_context.go, and executeBucketedQueryScoped, the same statements
    over the rows of one scope). */
module BucketedQuery {
  import opened Outcomes
  import opened ExecutionPolicy
  import opened Sequences

  const MAX_BUCKETED_TOTAL_ITEMS: nat := 10_000
  const MAX_BUCKET_QUERIES: nat := 200

  /** One group: its key and the rows it holds, in the order a bucket query returns them. */
  datatype Bucket = Bucket(key: string, items: seq<nat>)

  datatype Truncation = Truncation(shown: nat, requested: nat, dropped: nat)

  datatype Page = Page(buckets: seq<Bucket>, nextOffset: Option<nat>, totalGroups: nat,
    onlyFirstGroups: bool, queryLimited: bool, truncation: Option<Truncation>)

  /** The groups a query can ever show: key discovery stops at the ceiling. */
  function Retained(db: seq<Bucket>): seq<Bucket> {
    Take(Take(db, MAX_BUCKETS + 1), MAX_BUCKETS)
  }

  function Start(q: Query): nat {
    if q.offset > 0 then q.offset else 0
  }

  /** The groups the page was asked for. */
  function Requested(db: seq<Bucket>, q: Query): seq<Bucket> {
    var all := Retained(db);
    var rest := if Start(q) >= |all| then [] else all[Start(q)..];
    if q.bucketLimit >= 0 then Take(rest, q.bucketLimit) else rest
  }

  /** A bucket as a page shows it: its first LIMIT items, or all of them without a LIMIT. */
  function Shown(b: Bucket, limit: GoInt): Bucket {
    Bucket(b.key, if limit < 0 then b.items else Take(b.items, limit))
  }

  /** shown holds exactly these groups, in this order, each as a page shows it. */
  ghost predicate AllShown(shown: seq<Bucket>, groups: seq<Bucket>, limit: GoInt) {
    |shown| == |groups| && forall i :: 0 <= i < |groups| ==> shown[i] == Shown(groups[i], limit)
  }

  function TotalItems(bs: seq<Bucket>): nat {
    if bs == [] then 0 else TotalItems(bs[..|bs| - 1]) + |bs[|bs| - 1].items|
  }

  /** The buckets are the first keys shown whole, and only the last reached the budget. */
  ghost predicate Filled(keys: seq<Bucket>, limit: GoInt, buckets: seq<Bucket>) {
    && |buckets| <= |keys|
    && AllShown(buckets, keys[..|buckets|], limit)
    && TotalItems(buckets) <= MAX_BUCKETED_TOTAL_ITEMS
    && (buckets != [] ==> TotalItems(buckets) - |buckets[|buckets| - 1].items| < MAX_BUCKETED_TOTAL_ITEMS)
  }

  /** What a page must be, without saying how it is computed: whole buckets only, from
      the requested position on, within the item budget, as many as fit, and a cursor to
      the first group not shown. */
  ghost predicate IsPage(db: seq<Bucket>, q: Query, page: Page) {
    var all := Retained(db);
    var asked := Requested(db, q);
    var queried := Take(asked, MAX_BUCKET_QUERIES);
    var n := |page.buckets|;
    && Filled(queried, q.limit, page.buckets)
    && (n < |queried| ==>
          || TotalItems(page.buckets) >= MAX_BUCKETED_TOTAL_ITEMS
          || TotalItems(page.buckets) + |Shown(queried[n], q.limit).items| > MAX_BUCKETED_TOTAL_ITEMS)
    && page.nextOffset == (if Start(q) + n < |all| then Some(Start(q) + n) else None)
    && page.totalGroups == |all|
    && page.onlyFirstGroups == (|db| > MAX_BUCKETS && q.bucketLimit < 0 && q.offset < 0)
    && page.queryLimited == (|asked| > MAX_BUCKET_QUERIES)
    && page.truncation ==
         (if n < |asked| && (n < |queried| || TotalItems(page.buckets) >= MAX_BUCKETED_TOTAL_ITEMS)
          then Some(Truncation(n, |asked|, |asked| - n)) else None)
  }

  /** A bucket shows this group: its key and its first limit items, or all without a limit. */
  predicate Shows(shown: Bucket, group: Bucket, limit: GoInt) {
    && shown.key == group.key
    && (limit < 0 || |group.items| <= limit ==> shown.items == group.items)
    && (0 <= limit < |group.items| ==> shown.items == group.items[..limit])
  }

  /** In groups and items: from the offset on, each group whole and in order, no more than
      the limits allow, and a total within the budget, which only the last may exhaust. */
  ghost predicate IsPageInItems(db: seq<Bucket>, q: Query, page: Page) {
    var from := if q.offset > 0 then q.offset else 0;
    var retained := if |db| < 1000 then |db| else 1000;
    var n := |page.buckets|;
    && (n > 0 ==> from + n <= retained) && n <= 200 && (q.bucketLimit >= 0 ==> n <= q.bucketLimit)
    && (forall i :: 0 <= i < n ==> Shows(page.buckets[i], db[from + i], q.limit))
    && TotalItems(page.buckets) <= 10_000
    && (forall k :: 0 <= k < n ==> TotalItems(page.buckets[..k]) < 10_000)
    && page.totalGroups == retained
    && page.nextOffset == (if from + n < retained then Some(from + n) else None)
  }

  /** A page short of every limit stops at a group that does not fit whole. */
  ghost predicate IsAsFullAsCanBe(db: seq<Bucket>, q: Query, page: Page) {
    var from := if q.offset > 0 then q.offset else 0;
    var n := |page.buckets|;
    from + n < |db| && from + n < 1000 && n < 200 && (q.bucketLimit >= 0 ==> n < q.bucketLimit)
      && TotalItems(page.buckets) < 10_000 ==>
    forall b: Bucket :: Shows(b, db[from + n], q.limit) ==> TotalItems(page.buckets) + |b.items| > 10_000
  }

  lemma PageInItems(db: seq<Bucket>, q: Query, page: Page)
    requires IsPage(db, q, page)
    ensures IsPageInItems(db, q, page) && IsAsFullAsCanBe(db, q, page)
  {
    QueriedGroups(db, q);
    ShownGroups(Take(Requested(db, q), MAX_BUCKET_QUERIES), q.limit, page.buckets);
    NextDoesNotFit(db, q, page);
  }

  lemma ShownGroups(keys: seq<Bucket>, limit: GoInt, buckets: seq<Bucket>)
    requires Filled(keys, limit, buckets)
    ensures forall i :: 0 <= i < |buckets| ==> Shows(buckets[i], keys[i], limit)
    ensures forall k :: 0 <= k < |buckets| ==> TotalItems(buckets[..k]) < 10_000
  {
    forall i | 0 <= i < |buckets| ensures Shows(buckets[i], keys[i], limit) {
      assert buckets[i] == Shown(keys[..|buckets|][i], limit);
    }
    forall k | 0 <= k < |buckets| ensures TotalItems(buckets[..k]) < 10_000 {
      RoomBefore(buckets, k);
    }
  }

  lemma NextDoesNotFit(db: seq<Bucket>, q: Query, page: Page)
    requires IsPage(db, q, page)
    ensures IsAsFullAsCanBe(db, q, page)
  {
    var queried, from := Take(Requested(db, q), MAX_BUCKET_QUERIES), if q.offset > 0 then q.offset else 0;
    var n := |page.buckets|;
    QueriedGroups(db, q);
    if n < |queried| {
      forall b: Bucket | Shows(b, db[from + n], q.limit) ensures |b.items| == |Shown(queried[n], q.limit).items| { }
    }
  }

  /** The groups a page may show: at most 200, at most the bucket limit, from the offset on. */
  lemma QueriedGroups(db: seq<Bucket>, q: Query)
    ensures
      var queried, from := Take(Requested(db, q), MAX_BUCKET_QUERIES), if q.offset > 0 then q.offset else 0;
      var retained := if |db| < 1000 then |db| else 1000;
      var ahead := if from < retained then retained - from else 0;
      var asked := if 0 <= q.bucketLimit < ahead then q.bucketLimit else ahead;
      && |Retained(db)| == retained && |queried| == (if asked < 200 then asked else 200)
      && forall i :: 0 <= i < |queried| ==> queried[i] == db[from + i]
  {
    RetainedGroups(db);
    RequestedGroups(db, q);
    QueriedSlice(db, Retained(db), Requested(db, q), q);
  }

  lemma QueriedSlice(db: seq<Bucket>, all: seq<Bucket>, requested: seq<Bucket>, q: Query)
    requires all <= db
    requires
      var from := if q.offset < 0 then 0 else if q.offset < |all| then q.offset else |all|;
      var to := if 0 <= q.bucketLimit < |all| - from then from + q.bucketLimit else |all|;
      requested == all[from..to]
    ensures
      var queried, from := Take(requested, MAX_BUCKET_QUERIES), if q.offset > 0 then q.offset else 0;
      var ahead := if from < |all| then |all| - from else 0;
      var asked := if 0 <= q.bucketLimit < ahead then q.bucketLimit else ahead;
      && |queried| == (if asked < 200 then asked else 200)
      && forall i :: 0 <= i < |queried| ==> queried[i] == db[from + i]
  {
  }

  lemma RetainedGroups(db: seq<Bucket>)
    ensures Retained(db) == if |db| < 1000 then db else db[..1000]
  {
  }

  lemma RequestedGroups(db: seq<Bucket>, q: Query)
    ensures
      var all := Retained(db);
      var from := if q.offset < 0 then 0 else if q.offset < |all| then q.offset else |all|;
      var to := if 0 <= q.bucketLimit < |all| - from then from + q.bucketLimit else |all|;
      Requested(db, q) == all[from..to]
  {
    var all := Retained(db);
    var from := if q.offset < 0 then 0 else if q.offset < |all| then q.offset else |all|;
    var rest := all[from..];
    assert Requested(db, q) == if q.bucketLimit >= 0 then Take(rest, q.bucketLimit) else rest;
    if 0 <= q.bucketLimit < |rest| {
      SliceOfRest(all, from, q.bucketLimit);
    }
  }

  lemma SliceOfRest(s: seq<Bucket>, from: nat, k: nat)
    requires from + k <= |s|
    ensures s[from..][..k] == s[from..from + k]
  {
  }

  /** What the sum is: nothing for no buckets, and it adds up. */
  lemma {:induction false} TotalItemsAddsUp(a: seq<Bucket>, b: seq<Bucket>)
    ensures TotalItems(a + b) == TotalItems(a) + TotalItems(b)
    ensures |a| == 1 ==> TotalItems(a) == |a[0].items|
  {
    if |a| == 1 { assert a[..|a| - 1] == []; }
    if b == [] {
      assert a + b == a;
    } else {
      assert (a + b)[..|a + b| - 1] == a + b[..|b| - 1];
      TotalItemsAddsUp(a, b[..|b| - 1]);
      assert TotalItems(a + b) == TotalItems((a + b)[..|a + b| - 1]) + |b[|b| - 1].items|;
    }
  }

  method ExecuteBucketedQuery(db: seq<Bucket>, q: Query) returns (page: Page)
    ensures IsPage(db, q, page)
  {
    var allKeys, keys, onlyFirst := SelectKeys(db, q);
    var requestedKeys := |keys|;
    var queryLimited := false;
    if |keys| > MAX_BUCKET_QUERIES {
      keys := keys[..MAX_BUCKET_QUERIES];
      queryLimited := true;
    }

    var buckets, totalItems, capOverflow := FillBuckets(keys, q.limit);

    var truncation := None;
    if (capOverflow || totalItems >= MAX_BUCKETED_TOTAL_ITEMS) && |buckets| < requestedKeys {
      truncation := Some(Truncation(|buckets|, requestedKeys, requestedKeys - |buckets|));
    }
    var nextOffset := NextOffset(q, |buckets|, |allKeys|);
    page := Page(buckets, nextOffset, |allKeys|, onlyFirst, queryLimited, truncation);
  }

  /** Key discovery and the page slice, taken in memory. */
  method SelectKeys(db: seq<Bucket>, q: Query) returns (allKeys: seq<Bucket>, keys: seq<Bucket>, onlyFirst: bool)
    ensures allKeys == Retained(db) && keys == Requested(db, q)
    ensures onlyFirst <==> |db| > MAX_BUCKETS && q.bucketLimit < 0 && q.offset < 0
  {
    allKeys := Take(db, MAX_BUCKETS + 1);
    var isPaginated := q.bucketLimit >= 0 || q.offset >= 0;
    onlyFirst := false;
    if |allKeys| > MAX_BUCKETS {
      allKeys := allKeys[..MAX_BUCKETS];
      onlyFirst := !isPaginated;
    }
    keys := allKeys;
    if q.offset > 0 {
      if q.offset >= |keys| {
        keys := [];
      } else {
        keys := keys[q.offset..];
      }
    }
    var pageSize := |keys|;
    if q.bucketLimit >= 0 && q.bucketLimit < pageSize {
      pageSize := q.bucketLimit;
    }
    keys := keys[..pageSize];
  }

  /** The cursor is computed from the buckets actually shown. */
  method NextOffset(q: Query, shown: nat, total: nat) returns (next: Option<nat>)
    ensures next == if Start(q) + shown < total then Some(Start(q) + shown) else None
  {
    var offset := 0;
    if q.offset > 0 {
      offset := q.offset;
    }
    var actualNextOffset := offset + shown;
    next := None;
    if actualNextOffset < total {
      next := Some(actualNextOffset);
    }
  }

  lemma FilledAppend(keys: seq<Bucket>, limit: GoInt, buckets: seq<Bucket>)
    requires Filled(keys, limit, buckets) && |buckets| < |keys|
    requires TotalItems(buckets) < MAX_BUCKETED_TOTAL_ITEMS
    requires TotalItems(buckets) + |Shown(keys[|buckets|], limit).items| <= MAX_BUCKETED_TOTAL_ITEMS
    ensures var next := buckets + [Shown(keys[|buckets|], limit)];
      Filled(keys, limit, next)
      && TotalItems(next) == TotalItems(buckets) + |Shown(keys[|buckets|], limit).items|
  {
    var n := |buckets|;
    var next := buckets + [Shown(keys[n], limit)];
    assert next[..|next| - 1] == buckets;
  }

  /** The materialization loop: each bucket is probed for one item more than the budget
      still allows, and a bucket that does not fit whole ends the page. */
  method FillBuckets(keys: seq<Bucket>, limit: GoInt)
    returns (buckets: seq<Bucket>, totalItems: nat, capOverflow: bool)
    ensures Filled(keys, limit, buckets) && totalItems == TotalItems(buckets)
    ensures forall i :: 0 <= i < |buckets| ==> Shows(buckets[i], keys[i], limit)
    ensures capOverflow ==>
      |buckets| < |keys| && totalItems + |Shown(keys[|buckets|], limit).items| > MAX_BUCKETED_TOTAL_ITEMS
    ensures |buckets| < |keys| ==> capOverflow || totalItems >= MAX_BUCKETED_TOTAL_ITEMS
  {
    buckets, totalItems, capOverflow := [], 0, false;
    var i := 0;
    while i < |keys|
      invariant 0 <= i <= |keys| && |buckets| == i && !capOverflow
      invariant Filled(keys, limit, buckets) && totalItems == TotalItems(buckets)
    {
      if totalItems >= MAX_BUCKETED_TOTAL_ITEMS {
        break;
      }
      var remaining := MAX_BUCKETED_TOTAL_ITEMS - totalItems;
      var probeLimit := remaining + 1;
      if limit >= 0 && limit < probeLimit {
        probeLimit := limit;
      }
      var bucket := Bucket(keys[i].key, Take(keys[i].items, probeLimit));
      if |bucket.items| > remaining {
        capOverflow := true;
        break;
      }
      assert bucket == Shown(keys[i], limit);
      FilledAppend(keys, limit, buckets);
      totalItems := totalItems + |bucket.items|;
      buckets := buckets + [bucket];
      i := i + 1;
    }
  }

  // ---- the cursor ----

  /** What executeMRQLGrouped hands to the bucketed executor. */
  function NormalizeGrouped(q: Query, defaultLimit: GoInt, policy: Policy): (r: Result<Query, LimitError>)
    requires defaultLimit > 0 && policy.maxLimit >= 0
    ensures r.Ok? ==> 0 <= r.value.limit <= MAX_BUCKETED_TOTAL_ITEMS
    ensures r.Ok? ==> r.value.bucketLimit <= MAX_BUCKETS && r.value.offset <= policy.maxOffset
    ensures
      var limit := if q.limit >= 0 then q.limit
                   else if defaultLimit < policy.maxLimit then defaultLimit else policy.maxLimit;
      && (r.Ok? <==> limit <= policy.maxLimit && q.offset <= policy.maxOffset && q.bucketLimit <= MAX_BUCKETS)
      && (r.Ok? ==> r.value == Query(if limit < 10_000 then limit else 10_000, q.offset, q.bucketLimit))
  {
    var limited := if q.limit < 0 then q.(limit := Min(defaultLimit, policy.maxLimit)) else q;
    match ValidateBounds(limited, policy)
    case Some(e) => Err(e)
    case None => Ok(limited.(limit := Min(limited.limit, MAX_BUCKETED_TOTAL_ITEMS)))
  }

  lemma FirstBucketTotal(bs: seq<Bucket>)
    ensures TotalItems(bs[..0]) == 0
    ensures |bs| == 1 ==> TotalItems(bs) == |bs[0].items|
  {
    if |bs| == 1 { assert bs[..|bs| - 1] == []; }
  }

  /** A page with groups still ahead of it shows at least one of them, except in exactly
      two cases: a bucket limit of zero, and a first bucket that exceeds the budget by
      itself, which only an absent or oversized LIMIT allows. */
  lemma PageMakesProgress(db: seq<Bucket>, q: Query, page: Page)
    requires IsPage(db, q, page) && Start(q) < |Retained(db)|
    ensures |page.buckets| > 0 <==>
      q.bucketLimit != 0 && |Shown(Retained(db)[Start(q)], q.limit).items| <= MAX_BUCKETED_TOTAL_ITEMS
  {
    var queried := Take(Requested(db, q), MAX_BUCKET_QUERIES);
    if q.bucketLimit != 0 {
      assert queried[0] == Retained(db)[Start(q)];
      if |page.buckets| > 0 {
        FirstBucketTotal(page.buckets[..1]);
        assert page.buckets[0] == Shown(queried[0], q.limit);
        TotalMonotone(page.buckets, 1);
      }
    }
  }

  lemma {:induction false} TotalMonotone(bs: seq<Bucket>, k: nat)
    requires k <= |bs|
    ensures TotalItems(bs[..k]) <= TotalItems(bs)
  {
    if k < |bs| {
      TotalMonotone(bs[..|bs| - 1], k);
      assert bs[..|bs| - 1][..k] == bs[..k];
    } else {
      assert bs[..k] == bs;
    }
  }

  lemma PrefixOfFill(keys: seq<Bucket>, limit: GoInt, a: seq<Bucket>, b: seq<Bucket>)
    requires Filled(keys, limit, a) && Filled(keys, limit, b) && |a| < |b|
    ensures a == b[..|a|] && b[|a|] == Shown(keys[|a|], limit)
  {
    assert forall i :: 0 <= i < |a| ==> a[i] == b[i];
  }

  lemma RoomBefore(b: seq<Bucket>, n: nat)
    requires n < |b| && TotalItems(b) <= MAX_BUCKETED_TOTAL_ITEMS
    requires TotalItems(b) - |b[|b| - 1].items| < MAX_BUCKETED_TOTAL_ITEMS
    ensures TotalItems(b[..n]) < MAX_BUCKETED_TOTAL_ITEMS
    ensures TotalItems(b[..n]) + |b[n].items| <= MAX_BUCKETED_TOTAL_ITEMS
  {
    TotalMonotone(b, n + 1);
    assert b[..n + 1][..n] == b[..n];
    TotalMonotone(b[..|b| - 1], n);
    assert b[..|b| - 1][..n] == b[..n];
  }

  /** A shorter fill of the same keys stopped although the next bucket fits. */
  lemma ShorterFillHasRoom(keys: seq<Bucket>, limit: GoInt, a: seq<Bucket>, b: seq<Bucket>)
    requires Filled(keys, limit, a) && Filled(keys, limit, b) && |a| < |b|
    ensures TotalItems(a) < MAX_BUCKETED_TOTAL_ITEMS
    ensures TotalItems(a) + |Shown(keys[|a|], limit).items| <= MAX_BUCKETED_TOTAL_ITEMS
  {
    PrefixOfFill(keys, limit, a, b);
    RoomBefore(b, |a|);
  }

  /** The conditions leave no choice: the page they describe is unique. */
  lemma PageUnique(db: seq<Bucket>, q: Query, a: Page, b: Page)
    requires IsPage(db, q, a) && IsPage(db, q, b)
    ensures a == b
  {
    var queried := Take(Requested(db, q), MAX_BUCKET_QUERIES);
    if |a.buckets| < |b.buckets| {
      ShorterFillHasRoom(queried, q.limit, a.buckets, b.buckets);
    } else if |b.buckets| < |a.buckets| {
      ShorterFillHasRoom(queried, q.limit, b.buckets, a.buckets);
    } else {
      assert a.buckets == b.buckets;
    }
  }

  /** Pages fetched one after the other, each at the offset the one before it named. */
  ghost predicate FollowsCursor(db: seq<Bucket>, q: Query, offset: nat, pages: seq<Page>)
    requires offset <= MAX_BUCKETS
    decreases |pages|
  {
    pages == [] ||
    (&& IsPage(db, q.(offset := offset), pages[0])
     && (|pages| > 1 ==>
           && pages[0].nextOffset.Some?
           && FollowsCursor(db, q, pages[0].nextOffset.value, pages[1..])))
  }

  ghost function AllBuckets(pages: seq<Page>): seq<Bucket> {
    if pages == [] then [] else pages[0].buckets + AllBuckets(pages[1..])
  }

  ghost predicate CursorAdvances(q: Query) {
    q.bucketLimit != 0 && 0 <= q.limit <= MAX_BUCKETED_TOTAL_ITEMS
  }

  /** A page shows a contiguous range of the groups and points past it. */
  ghost predicate ShowsRange(all: seq<Bucket>, limit: GoInt, offset: nat, page: Page) {
    var n := |page.buckets|;
    && offset + n <= |all|
    && AllShown(page.buckets, all[offset..offset + n], limit)
    && (page.nextOffset.None? <==> offset + n == |all|)
    && (page.nextOffset.Some? ==> page.nextOffset.value == offset + n)
  }

  ghost predicate ShowRanges(all: seq<Bucket>, limit: GoInt, offset: nat, pages: seq<Page>)
    decreases |pages|
  {
    pages == [] ||
    (&& ShowsRange(all, limit, offset, pages[0])
     && (|pages| > 1 ==> ShowRanges(all, limit, offset + |pages[0].buckets|, pages[1..])))
  }

  lemma RequestedRange(db: seq<Bucket>, q: Query, n: nat)
    requires Start(q) <= |Retained(db)| && n <= |Take(Requested(db, q), MAX_BUCKET_QUERIES)|
    ensures Start(q) + n <= |Retained(db)|
    ensures Take(Requested(db, q), MAX_BUCKET_QUERIES)[..n] == Retained(db)[Start(q)..Start(q) + n]
  {
    var all := Retained(db);
    var rest := if Start(q) >= |all| then [] else all[Start(q)..];
    assert Requested(db, q) <= rest;
  }

  lemma PageShowsRange(db: seq<Bucket>, q: Query, page: Page)
    requires IsPage(db, q, page) && Start(q) <= |Retained(db)|
    ensures ShowsRange(Retained(db), q.limit, Start(q), page)
  {
    RequestedRange(db, q, |page.buckets|);
  }

  lemma HeadShowsRange(db: seq<Bucket>, q: Query, offset: nat, pages: seq<Page>)
    requires offset <= |Retained(db)| && pages != [] && FollowsCursor(db, q, offset, pages)
    ensures ShowsRange(Retained(db), q.limit, offset, pages[0])
  {
    PageShowsRange(db, q.(offset := offset), pages[0]);
  }

  lemma {:induction false} CursorShowsRanges(db: seq<Bucket>, q: Query, offset: nat, pages: seq<Page>)
    requires offset <= |Retained(db)| && FollowsCursor(db, q, offset, pages)
    ensures ShowRanges(Retained(db), q.limit, offset, pages)
    decreases |pages|
  {
    if pages != [] {
      HeadShowsRange(db, q, offset, pages);
      if |pages| > 1 {
        CursorShowsRanges(db, q, pages[0].nextOffset.value, pages[1..]);
      }
    }
  }

  lemma ShownConcat(all: seq<Bucket>, limit: GoInt, offset: nat, a: seq<Bucket>, b: seq<Bucket>)
    requires offset + |a| + |b| <= |all|
    requires AllShown(a, all[offset..offset + |a|], limit)
    requires AllShown(b, all[offset + |a|..offset + |a| + |b|], limit)
    ensures AllShown(a + b, all[offset..offset + |a + b|], limit)
  {
    assert all[offset..offset + |a + b|] == all[offset..offset + |a|] + all[offset + |a|..offset + |a| + |b|];
  }

  lemma {:induction false} RangesAddUp(all: seq<Bucket>, limit: GoInt, offset: nat, pages: seq<Page>)
    requires pages != [] && ShowRanges(all, limit, offset, pages)
    ensures var shown := AllBuckets(pages);
      && offset + |shown| <= |all|
      && AllShown(shown, all[offset..offset + |shown|], limit)
      && (pages[|pages| - 1].nextOffset.None? <==> offset + |shown| == |all|)
    decreases |pages|
  {
    if |pages| == 1 {
      assert AllBuckets(pages[1..]) == [];
      assert AllBuckets(pages) == pages[0].buckets;
    } else {
      var n := |pages[0].buckets|;
      RangesAddUp(all, limit, offset + n, pages[1..]);
      ShownConcat(all, limit, offset, pages[0].buckets, AllBuckets(pages[1..]));
    }
  }

  lemma CursorShowsEachGroupOnce(db: seq<Bucket>, q: Query, offset: nat, pages: seq<Page>)
    requires offset <= |Retained(db)|
    requires pages != [] && FollowsCursor(db, q, offset, pages)
    ensures var shown := AllBuckets(pages);
      && offset + |shown| <= |Retained(db)|
      && AllShown(shown, Retained(db)[offset..offset + |shown|], q.limit)
      && (pages[|pages| - 1].nextOffset.None? <==> offset + |shown| == |Retained(db)|)
  {
    CursorShowsRanges(db, q, offset, pages);
    RangesAddUp(Retained(db), q.limit, offset, pages);
  }

  /** Termination: every page but the last advances, so a walk has at most as many pages
      as there are groups (one, when there are none). */
  lemma {:induction false} CursorTerminates(db: seq<Bucket>, q: Query, offset: nat, pages: seq<Page>)
    requires CursorAdvances(q) && offset <= |Retained(db)|
    requires FollowsCursor(db, q, offset, pages)
    ensures |pages| <= if offset < |Retained(db)| then |Retained(db)| - offset else 1
    decreases |pages|
  {
    if |pages| > 1 {
      var page := pages[0];
      assert offset < |Retained(db)|;
      PageMakesProgress(db, q.(offset := offset), page);
      assert page.nextOffset.value == offset + |page.buckets|;
      CursorTerminates(db, q, page.nextOffset.value, pages[1..]);
    }
  }

  // ---- the one complete walk ----

  /** Some longest fill starting with these buckets. */
  lemma {:induction false} FillFrom(keys: seq<Bucket>, limit: GoInt, buckets: seq<Bucket>) returns (full: seq<Bucket>)
    requires Filled(keys, limit, buckets)
    ensures Filled(keys, limit, full)
    ensures |full| < |keys| ==>
      || TotalItems(full) >= MAX_BUCKETED_TOTAL_ITEMS
      || TotalItems(full) + |Shown(keys[|full|], limit).items| > MAX_BUCKETED_TOTAL_ITEMS
    decreases |keys| - |buckets|
  {
    var n := |buckets|;
    if n < |keys| && TotalItems(buckets) < MAX_BUCKETED_TOTAL_ITEMS
      && TotalItems(buckets) + |Shown(keys[n], limit).items| <= MAX_BUCKETED_TOTAL_ITEMS
    {
      FilledAppend(keys, limit, buckets);
      full := FillFrom(keys, limit, buckets + [Shown(keys[n], limit)]);
    } else {
      full := buckets;
    }
  }

  lemma PageExists(db: seq<Bucket>, q: Query) returns (page: Page)
    ensures IsPage(db, q, page)
  {
    var asked, total := Requested(db, q), |Retained(db)|;
    var buckets := FillFrom(Take(asked, MAX_BUCKET_QUERIES), q.limit, []);
    var n := |buckets|;
    page := Page(buckets, if Start(q) + n < total then Some(Start(q) + n) else None, total,
      |db| > MAX_BUCKETS && q.bucketLimit < 0 && q.offset < 0, |asked| > MAX_BUCKET_QUERIES,
      if n < |asked| && (n < |Take(asked, MAX_BUCKET_QUERIES)| || TotalItems(buckets) >= MAX_BUCKETED_TOTAL_ITEMS)
      then Some(Truncation(n, |asked|, |asked| - n)) else None);
  }

  ghost predicate Ends(pages: seq<Page>) {
    pages != [] && pages[|pages| - 1].nextOffset.None?
  }

  lemma {:induction false} WalkFrom(db: seq<Bucket>, q: Query, offset: nat) returns (pages: seq<Page>)
    requires CursorAdvances(q) && offset <= |Retained(db)|
    ensures FollowsCursor(db, q, offset, pages) && Ends(pages)
    decreases |Retained(db)| - offset
  {
    var page := PageExists(db, q.(offset := offset));
    pages := [page];
    if page.nextOffset.Some? {
      PageMakesProgress(db, q.(offset := offset), page);
      var rest := WalkFrom(db, q, page.nextOffset.value);
      pages := [page] + rest;
      assert pages[1..] == rest;
    }
  }

  /** Two walks from one offset agree as far as both go. */
  lemma {:induction false} WalksAgree(db: seq<Bucket>, q: Query, offset: nat, a: seq<Page>, b: seq<Page>)
    requires offset <= MAX_BUCKETS && FollowsCursor(db, q, offset, a) && FollowsCursor(db, q, offset, b)
    requires |a| <= |b|
    ensures a <= b
    decreases |a|
  {
    if a != [] {
      FirstPageIs(db, q, offset, a, b);
      if |a| > 1 {
        WalksAgree(db, q, a[0].nextOffset.value, a[1..], b[1..]);
        PrefixByTail(a, b);
      }
    }
  }

  lemma FirstPageIs(db: seq<Bucket>, q: Query, offset: nat, a: seq<Page>, b: seq<Page>)
    requires offset <= MAX_BUCKETS && FollowsCursor(db, q, offset, a) && FollowsCursor(db, q, offset, b)
    requires a != [] && b != []
    ensures a[0] == b[0]
  {
    PageUnique(db, q.(offset := offset), a[0], b[0]);
  }

  lemma PrefixByTail(a: seq<Page>, b: seq<Page>)
    requires a != [] && b != [] && a[0] == b[0] && a[1..] <= b[1..]
    ensures a <= b
  {
    assert a == [a[0]] + a[1..] && b == [b[0]] + b[1..];
  }

  lemma {:induction false} OnlyLastEnds(db: seq<Bucket>, q: Query, offset: nat, pages: seq<Page>, k: nat)
    requires offset <= MAX_BUCKETS && FollowsCursor(db, q, offset, pages) && k + 1 < |pages|
    ensures pages[k].nextOffset.Some?
    decreases |pages|
  {
    TailFollows(db, q, offset, pages);
    if k > 0 {
      OnlyLastEnds(db, q, pages[0].nextOffset.value, pages[1..], k - 1);
      assert pages[k] == pages[1..][k - 1];
    }
  }

  lemma TailFollows(db: seq<Bucket>, q: Query, offset: nat, pages: seq<Page>)
    requires offset <= MAX_BUCKETS && FollowsCursor(db, q, offset, pages) && |pages| > 1
    ensures pages[0].nextOffset.Some? && pages[0].nextOffset.value <= MAX_BUCKETS
    ensures FollowsCursor(db, q, pages[0].nextOffset.value, pages[1..])
  {
  }

  lemma NoWalkGoesOn(db: seq<Bucket>, q: Query, pages: seq<Page>, other: seq<Page>)
    requires FollowsCursor(db, q, 0, pages) && Ends(pages) && FollowsCursor(db, q, 0, other)
    ensures other <= pages
  {
    if |other| <= |pages| {
      WalksAgree(db, q, 0, other, pages);
    } else {
      WalksAgree(db, q, 0, pages, other);
      OnlyLastEnds(db, q, 0, other, |pages| - 1);
    }
  }

  /** There is exactly one walk from the first page to a page without a cursor; every other
      walk from there is a beginning of it. It shows all retained groups, each whole, once
      and in order, in no more pages than there are groups. */
  lemma CursorWalksThrough(db: seq<Bucket>, q: Query) returns (pages: seq<Page>)
    requires CursorAdvances(q)
    ensures FollowsCursor(db, q, 0, pages) && Ends(pages)
    ensures |AllBuckets(pages)| == if |db| < 1000 then |db| else 1000
    ensures forall i :: 0 <= i < |AllBuckets(pages)| ==> Shows(AllBuckets(pages)[i], db[i], q.limit)
    ensures |pages| <= |Retained(db)| || (Retained(db) == [] && |pages| == 1)
    ensures forall other :: FollowsCursor(db, q, 0, other) ==> other <= pages
  {
    pages := WalkFrom(db, q, 0);
    WalkShowsAll(db, q, pages);
    CursorTerminates(db, q, 0, pages);
    RetainedGroups(db);
    forall other | FollowsCursor(db, q, 0, other) ensures other <= pages {
      NoWalkGoesOn(db, q, pages, other);
    }
  }

  lemma WalkShowsAll(db: seq<Bucket>, q: Query, pages: seq<Page>)
    requires FollowsCursor(db, q, 0, pages) && Ends(pages)
    ensures |AllBuckets(pages)| == if |db| < 1000 then |db| else 1000
    ensures forall i :: 0 <= i < |AllBuckets(pages)| ==> Shows(AllBuckets(pages)[i], db[i], q.limit)
  {
    var all, shown := Retained(db), AllBuckets(pages);
    CursorShowsEachGroupOnce(db, q, 0, pages);
    assert all[0..|all|] == all;
    RetainedGroups(db);
    AllShownShows(shown, all, q.limit);
  }

  lemma AllShownShows(shown: seq<Bucket>, groups: seq<Bucket>, limit: GoInt)
    requires AllShown(shown, groups, limit)
    ensures forall i :: 0 <= i < |shown| ==> Shows(shown[i], groups[i], limit)
  {
    forall i | 0 <= i < |shown| ensures Shows(shown[i], groups[i], limit) {
      assert shown[i] == Shown(groups[i], limit);
    }
  }

  /** Every offset a page names is accepted by the bounds check of the next request. */
  lemma NextOffsetAccepted(db: seq<Bucket>, q: Query, page: Page, policy: Policy)
    requires IsPage(db, q, page) && page.nextOffset.Some?
    requires ValidateBounds(q, policy).None? && MAX_BUCKETS <= policy.maxOffset
    ensures page.nextOffset.value < MAX_BUCKETS
    ensures ValidateBounds(q.(offset := page.nextOffset.value), policy).None?
  {
  }

  /** Without the normalization the cursor can stand still: one group larger than the
      budget and no LIMIT gives an empty page that points at itself. */
  lemma UnlimitedOversizedBucketStalls(items: seq<nat>, page: Page)
    requires |items| > MAX_BUCKETED_TOTAL_ITEMS
    requires IsPage([Bucket("k", items)], Query(-1, 0, -1), page)
    ensures page.buckets == [] && page.nextOffset == Some(0)
  {
    var db := [Bucket("k", items)];
    var q := Query(-1, 0, -1);
    assert Retained(db) == db;
    PageMakesProgress(db, q, page);
  }
}
