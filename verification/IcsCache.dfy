/** The LRU cache of fetched calendars (application_context/calendar_cache.go). */
module IcsCache {
  import opened Outcomes
  import opened Sequences

  datatype Entry = Entry(content: string, fetchedAt: int, etag: string, lastModified: string)

  datatype Stored = Stored(url: string, entry: Entry)

  datatype Op = Get(url: string) | Set(url: string, entry: Entry) | Clear

  // ---- the reference: an unbounded stack of touched URLs ----

  function Without(stack: seq<Stored>, url: string): (rest: seq<Stored>) {
    if stack == [] then []
    else if stack[0].url == url then Without(stack[1..], url)
    else [stack[0]] + Without(stack[1..], url)
  }

  lemma {:induction false} WithoutMembers(stack: seq<Stored>, url: string)
    ensures forall x :: x in Without(stack, url) <==> x in stack && x.url != url
  {
    if stack != [] {
      WithoutMembers(stack[1..], url);
      assert forall x :: x in stack <==> x == stack[0] || x in stack[1..];
    }
  }

  lemma {:induction false} WithoutAbsent(stack: seq<Stored>, url: string)
    requires forall x :: x in stack ==> x.url != url
    ensures Without(stack, url) == stack
  {
    if stack != [] {
      assert forall x :: x in stack[1..] ==> x in stack;
      WithoutAbsent(stack[1..], url);
    }
  }

  predicate DistinctUrls(stack: seq<Stored>) {
    forall i, j :: 0 <= i < j < |stack| ==> stack[i].url != stack[j].url
  }

  predicate Holds(stack: seq<Stored>, url: string) {
    exists x :: x in stack && x.url == url
  }

  function Find(stack: seq<Stored>, url: string): (entry: Entry)
    requires Holds(stack, url)
    ensures Stored(url, entry) in stack
  {
    if stack[0].url == url then stack[0].entry else Find(stack[1..], url)
  }

  /** A Set touches its URL; a Get touches it when the cache holds it, that is when it is
      among the first `max` of the stack. */
  function Touched(stack: seq<Stored>, max: nat, op: Op): seq<Stored> {
    match op
    case Set(url, entry) => [Stored(url, entry)] + Without(stack, url)
    case Get(url) =>
      if Holds(Take(stack, max), url) then [Stored(url, Find(stack, url))] + Without(stack, url) else stack
    case Clear => []
  }

  function Stack(ops: seq<Op>, max: nat): seq<Stored> {
    if ops == [] then [] else Touched(Stack(ops[..|ops| - 1], max), max, ops[|ops| - 1])
  }

  lemma {:induction false} WithoutDistinct(stack: seq<Stored>, url: string)
    requires DistinctUrls(stack)
    ensures DistinctUrls(Without(stack, url))
  {
    if stack != [] {
      WithoutDistinct(stack[1..], url);
      WithoutMembers(stack[1..], url);
      if stack[0].url != url {
        var rest := Without(stack[1..], url);
        forall j | 0 <= j < |rest| ensures rest[j].url != stack[0].url {
          assert rest[j] in stack[1..];
        }
      }
    }
  }

  lemma {:induction false} StackDistinct(ops: seq<Op>, max: nat)
    ensures DistinctUrls(Stack(ops, max))
  {
    if ops != [] {
      var before := Stack(ops[..|ops| - 1], max);
      StackDistinct(ops[..|ops| - 1], max);
      var op := ops[|ops| - 1];
      if !op.Clear? {
        WithoutDistinct(before, op.url);
        WithoutMembers(before, op.url);
        var rest := Without(before, op.url);
        forall j | 0 <= j < |rest| ensures rest[j].url != op.url {
          assert rest[j] in rest;
        }
      }
    }
  }

  // ---- the bounded cache keeps the top of the stack ----

  /** What one operation does to what the cache holds. */
  function Kept(held: seq<Stored>, max: nat, op: Op): seq<Stored> {
    Take(Touched(held, max, op), max)
  }

  lemma TailLacksHead(stack: seq<Stored>)
    requires DistinctUrls(stack) && stack != []
    ensures DistinctUrls(stack[1..]) && forall x :: x in stack[1..] ==> x.url != stack[0].url
  {
    forall x | x in stack[1..] ensures x.url != stack[0].url {
      var j :| 0 <= j < |stack[1..]| && stack[1..][j] == x;
      assert stack[j + 1] == x;
    }
  }

  lemma {:induction false} WithoutKeepsOrder(stack: seq<Stored>, i: nat)
    requires DistinctUrls(stack) && i < |stack|
    ensures Without(stack, stack[i].url) == stack[..i] + stack[i + 1..]
  {
    TailLacksHead(stack);
    if i == 0 {
      WithoutAbsent(stack[1..], stack[0].url);
    } else {
      var rest := stack[1..];
      WithoutKeepsOrder(rest, i - 1);
      assert Without(stack, stack[i].url) == [stack[0]] + (rest[..i - 1] + rest[i..]);
      assert rest[..i - 1] == stack[1..i] && rest[i..] == stack[i + 1..];
    }
  }

  /** Taking out a URL near the top and taking out one below it, or one that is absent. */
  lemma {:induction false} TakeWithout(stack: seq<Stored>, url: string, max: nat)
    requires DistinctUrls(stack) && max > 0
    ensures Take(Without(stack, url), max - 1) == Take(Without(Take(stack, max), url), max - 1)
    decreases stack
  {
    if |stack| <= max {
      TakeAll(stack, max);
    } else if max > 1 {
      var top, rest := Take(stack, max), stack[1..];
      assert top[1..] == Take(rest, max - 1);
      if stack[0].url == url {
        TailLacksHead(stack);
        WithoutAbsent(rest, url);
        WithoutAbsent(Take(rest, max - 1), url);
      } else {
        TakeWithout(rest, url, max - 1);
        TakeCons(stack[0], Without(rest, url), max - 1);
        TakeCons(stack[0], Without(top[1..], url), max - 1);
      }
    }
  }

  lemma {:induction false} FindAt(stack: seq<Stored>, i: nat)
    requires DistinctUrls(stack) && i < |stack|
    ensures Holds(stack, stack[i].url) && Find(stack, stack[i].url) == stack[i].entry
  {
    assert stack[i] in stack;
    if i > 0 {
      FindAt(stack[1..], i - 1);
    }
  }

  lemma FindInTake(stack: seq<Stored>, max: nat, url: string)
    requires DistinctUrls(stack) && Holds(Take(stack, max), url)
    ensures Holds(stack, url) && Find(Take(stack, max), url) == Find(stack, url)
  {
    var i :| 0 <= i < |Take(stack, max)| && Take(stack, max)[i].url == url;
    FindAt(Take(stack, max), i);
    FindAt(stack, i);
  }

  lemma KeptIsTop(stack: seq<Stored>, max: nat, op: Op)
    requires DistinctUrls(stack) && max > 0
    ensures Kept(Take(stack, max), max, op) == Take(Touched(stack, max, op), max)
  {
    var top := Take(stack, max);
    assert Take(top, max) == top;
    if op.Set? || (op.Get? && Holds(top, op.url)) {
      TakeWithout(stack, op.url, max);
      if op.Get? { FindInTake(stack, max, op.url); }
      var x := Touched(stack, max, op)[0];
      TakeCons(x, Without(stack, op.url), max);
      TakeCons(x, Without(top, op.url), max);
    }
  }

  /** Running the bounded cache over any trace. */
  function Held(ops: seq<Op>, max: nat): seq<Stored> {
    if ops == [] then [] else Kept(Held(ops[..|ops| - 1], max), max, ops[|ops| - 1])
  }

  /** LRU refinement: the cache holds exactly the top of the unbounded stack. */
  lemma {:induction false} HoldsMostRecent(ops: seq<Op>, max: nat)
    requires max > 0
    ensures Held(ops, max) == Take(Stack(ops, max), max)
  {
    if ops != [] {
      HoldsMostRecent(ops[..|ops| - 1], max);
      StackDistinct(ops[..|ops| - 1], max);
      KeptIsTop(Stack(ops[..|ops| - 1], max), max, ops[|ops| - 1]);
    }
  }

  // ---- and the stack is the order of last touches ----

  predicate Touches(stack: seq<Stored>, max: nat, op: Op, url: string) {
    !op.Clear? && op.url == url && (op.Get? ==> Holds(Take(stack, max), url))
  }

  /** When a URL was last touched since the cache was last cleared; -1 for never. */
  function LastTouch(ops: seq<Op>, max: nat, url: string): (t: int)
    ensures -1 <= t < |ops|
  {
    if ops == [] || ops[|ops| - 1].Clear? then -1
    else if Touches(Stack(ops[..|ops| - 1], max), max, ops[|ops| - 1], url) then |ops| - 1
    else LastTouch(ops[..|ops| - 1], max, url)
  }

  function LastSet(ops: seq<Op>, url: string): Option<Entry> {
    if ops == [] || ops[|ops| - 1].Clear? then None
    else
      var op := ops[|ops| - 1];
      if op.Set? && op.url == url then Some(op.entry) else LastSet(ops[..|ops| - 1], url)
  }

  ghost predicate Descends(stack: seq<Stored>, ops: seq<Op>, max: nat) {
    Falls(stack, url => LastTouch(ops, max, url))
  }

  ghost predicate Falls(stack: seq<Stored>, touch: string -> int) {
    forall i, j :: 0 <= i < j < |stack| ==> touch(stack[i].url) > touch(stack[j].url)
  }

  ghost predicate Justified(stack: seq<Stored>, ops: seq<Op>, max: nat) {
    forall x :: x in stack ==> LastTouch(ops, max, x.url) >= 0 && LastSet(ops, x.url) == Some(x.entry)
  }

  ghost predicate Complete(stack: seq<Stored>, ops: seq<Op>, max: nat) {
    forall url :: LastTouch(ops, max, url) >= 0 ==> Holds(stack, url)
  }

  /** Most recently touched first, each touched URL once, each with its last Set entry. */
  lemma {:induction false} StackByLastTouch(ops: seq<Op>, max: nat)
    ensures Descends(Stack(ops, max), ops, max)
    ensures Justified(Stack(ops, max), ops, max) && Complete(Stack(ops, max), ops, max)
  {
    if ops != [] {
      var init, op := ops[..|ops| - 1], ops[|ops| - 1];
      StackByLastTouch(init, max);
      if op.Clear? {
        assert Stack(ops, max) == [] && forall url :: LastTouch(ops, max, url) == -1;
      } else {
        StackDistinct(init, max);
        OpMoves(ops, max, Stack(init, max));
      }
    }
  }

  /** So a hit returns what was last set for the URL since the last clear, and a URL set just
      now, or just hit, is a hit. */
  lemma HitIsLastSet(ops: seq<Op>, max: nat, url: string)
    requires max > 0
    ensures Holds(Held(ops, max), url) ==> LastSet(ops, url) == Some(Find(Held(ops, max), url))
    ensures LastTouch(ops, max, url) == |ops| - 1 >= 0 ==> Holds(Held(ops, max), url)
  {
    HoldsMostRecent(ops, max);
    StackByLastTouch(ops, max);
    StackDistinct(ops, max);
    var stack, top := Stack(ops, max), Take(Stack(ops, max), max);
    if Holds(top, url) {
      FindInTake(stack, max, url);
      var i :| 0 <= i < |top| && top[i].url == url;
      FindAt(stack, i);
      assert stack[i] in stack;
    }
    if LastTouch(ops, max, url) == |ops| - 1 >= 0 {
      var x :| x in stack && x.url == url;
      var i :| 0 <= i < |stack| && stack[i] == x;
      TopIsLater(stack, url => LastTouch(ops, max, url), i);
      assert top[0] == x && top[0] in top;
    }
  }

  lemma TopIsLater(stack: seq<Stored>, touch: string -> int, i: nat)
    requires Falls(stack, touch) && i < |stack|
    ensures i == 0 || touch(stack[0].url) > touch(stack[i].url)
  {
  }

  /** An operation that is not a touch changes nothing, a touch brings one URL to the top. */
  lemma OpMoves(ops: seq<Op>, max: nat, before: seq<Stored>)
    requires ops != [] && !ops[|ops| - 1].Clear? && before == Stack(ops[..|ops| - 1], max) && DistinctUrls(before)
    requires Descends(before, ops[..|ops| - 1], max)
    requires Justified(before, ops[..|ops| - 1], max) && Complete(before, ops[..|ops| - 1], max)
    ensures Descends(Stack(ops, max), ops, max)
    ensures Justified(Stack(ops, max), ops, max) && Complete(Stack(ops, max), ops, max)
  {
    var init, op, after := ops[..|ops| - 1], ops[|ops| - 1], Stack(ops, max);
    var touches := Touches(before, max, op, op.url);
    forall url
      ensures LastTouch(ops, max, url) == if touches && url == op.url then |init| else LastTouch(init, max, url)
      ensures LastSet(ops, url) == if op.Set? && url == op.url then Some(op.entry) else LastSet(init, url)
    {
    }
    if touches {
      if op.Get? { FindInTake(before, max, op.url); }
      TouchDescends(before, after[0], url => LastTouch(init, max, url), url => LastTouch(ops, max, url));
      TouchCompletes(before, init, ops, max, after[0]);
      TouchJustified(before, init, ops, max, after[0]);
    } else {
      assert after == before;
    }
  }

  lemma TouchDescends(before: seq<Stored>, x: Stored, was: string -> int, now: string -> int)
    requires DistinctUrls(before) && Falls(before, was)
    requires forall url :: url != x.url ==> now(url) == was(url) < now(x.url)
    ensures Falls([x] + Without(before, x.url), now)
  {
    WithoutFalls(before, x.url, was);
    WithoutUrl(before, x.url);
    TopFalls(Without(before, x.url), x, was, now);
  }

  lemma TopFalls(rest: seq<Stored>, x: Stored, was: string -> int, now: string -> int)
    requires Falls(rest, was) && forall j :: 0 <= j < |rest| ==> rest[j].url != x.url
    requires forall url :: url != x.url ==> now(url) == was(url) < now(x.url)
    ensures Falls([x] + rest, now)
  {
    var after := [x] + rest;
    forall i, j | 0 <= i < j < |after| ensures now(after[i].url) > now(after[j].url) {
      assert after[j] == rest[j - 1];
      if i > 0 { assert after[i] == rest[i - 1]; }
    }
  }

  lemma WithoutUrl(stack: seq<Stored>, url: string)
    ensures forall j :: 0 <= j < |Without(stack, url)| ==> Without(stack, url)[j].url != url
  {
    WithoutMembers(stack, url);
    forall j | 0 <= j < |Without(stack, url)| ensures Without(stack, url)[j].url != url {
      assert Without(stack, url)[j] in Without(stack, url);
    }
  }

  lemma TouchCompletes(before: seq<Stored>, init: seq<Op>, ops: seq<Op>, max: nat, x: Stored)
    requires Complete(before, init, max)
    requires forall url :: LastTouch(ops, max, url) == if url == x.url then |init| else LastTouch(init, max, url)
    ensures Complete([x] + Without(before, x.url), ops, max)
  {
    var rest := Without(before, x.url);
    var after := [x] + rest;
    WithoutMembers(before, x.url);
    forall url | LastTouch(ops, max, url) >= 0 ensures Holds(after, url) {
      assert after[0] in after;
      if url != x.url {
        var y :| y in before && y.url == url;
        assert y in rest;
      }
    }
  }

  lemma TouchJustified(before: seq<Stored>, init: seq<Op>, ops: seq<Op>, max: nat, x: Stored)
    requires Justified(before, init, max) && LastSet(ops, x.url) == Some(x.entry)
    requires forall url :: LastTouch(ops, max, url) == if url == x.url then |init| else LastTouch(init, max, url)
    requires forall url :: url != x.url ==> LastSet(ops, url) == LastSet(init, url)
    ensures Justified([x] + Without(before, x.url), ops, max)
  {
    WithoutMembers(before, x.url);
    forall y | y in [x] + Without(before, x.url)
      ensures LastTouch(ops, max, y.url) >= 0 && LastSet(ops, y.url) == Some(y.entry)
    {
      if y != x { assert y in before && y.url != x.url; }
    }
  }

  lemma WithoutFalls(stack: seq<Stored>, url: string, touch: string -> int)
    requires DistinctUrls(stack) && Falls(stack, touch)
    ensures Falls(Without(stack, url), touch)
  {
    if k :| 0 <= k < |stack| && stack[k].url == url {
      WithoutKeepsOrder(stack, k);
    } else {
      WithoutAbsent(stack, url);
    }
  }

  // ---- the cache itself: a map into the elements of a linked list ----

  /** A list element, shared by the map and the list. */
  class CacheItem {
    const url: string
    var entry: Entry

    constructor (url: string, entry: Entry)
      ensures this.url == url && this.entry == entry
    {
      this.url, this.entry := url, entry;
    }
  }

  /** The map and the list name the same URLs, each once, through the same elements. */
  ghost predicate Linked(entries: map<string, CacheItem>, order: seq<CacheItem>) {
    && (forall i, j :: 0 <= i < j < |order| ==> order[i].url != order[j].url)
    && (forall i :: 0 <= i < |order| ==> order[i].url in entries && entries[order[i].url] == order[i])
    && (forall url :: url in entries ==> entries[url] in order && entries[url].url == url)
  }

  function Moved<T>(order: seq<T>, i: nat): seq<T>
    requires i < |order|
  {
    [order[i]] + (order[..i] + order[i + 1..])
  }

  /** The same elements, with the i-th one brought to the front. */
  ghost predicate IsMoved<T>(order: seq<T>, after: seq<T>, i: nat)
    requires i < |order|
  {
    && |after| == |order|
    && (forall k :: 0 <= k < |after| ==> after[k] == order[if k == 0 then i else if k <= i then k - 1 else k])
    && (forall k :: 0 <= k < |order| ==> order[k] == after[if k == i then 0 else if k < i then k + 1 else k])
  }

  lemma MovedElements<T>(order: seq<T>, i: nat)
    requires i < |order|
    ensures IsMoved(order, Moved(order, i), i)
  {
  }

  lemma LinkedMoved(entries: map<string, CacheItem>, order: seq<CacheItem>, after: seq<CacheItem>, i: nat)
    requires Linked(entries, order) && i < |order| && IsMoved(order, after, i)
    ensures Linked(entries, after)
  {
    forall url | url in entries ensures entries[url] in after {
      var k :| 0 <= k < |order| && order[k] == entries[url];
      assert entries[url] == after[if k == i then 0 else if k < i then k + 1 else k];
    }
  }

  lemma LinkedPushed(entries: map<string, CacheItem>, order: seq<CacheItem>, elem: CacheItem)
    requires Linked(entries, order) && elem.url !in entries
    ensures Linked(entries[elem.url := elem], [elem] + order)
  {
    var after := [elem] + order;
    forall k | 0 < k < |after| ensures after[k] == order[k - 1] && after[k].url in entries { }
    forall url | url in entries ensures entries[url] in after {
      assert entries[url] in order;
    }
    assert after[0] == elem;
  }

  lemma LinkedDropped(entries: map<string, CacheItem>, order: seq<CacheItem>)
    requires Linked(entries, order) && order != []
    ensures Linked(entries - {order[|order| - 1].url}, order[..|order| - 1])
  {
    var rest := entries - {order[|order| - 1].url};
    forall url | url in rest ensures rest[url] in order[..|order| - 1] {
      var k :| 0 <= k < |order| && order[k] == entries[url];
      assert entries[url] == order[..|order| - 1][k];
    }
  }

  /** What the elements hold, most recently used first. */
  ghost predicate Mirrors(order: seq<CacheItem>, held: seq<Stored>)
    reads order
  {
    |held| == |order| && forall i :: 0 <= i < |order| ==> held[i] == Stored(order[i].url, order[i].entry)
  }

  lemma MirrorsPushed(order: seq<CacheItem>, held: seq<Stored>, elem: CacheItem)
    requires Mirrors(order, held)
    ensures Mirrors([elem] + order, [Stored(elem.url, elem.entry)] + held)
  {
    var after := [elem] + order;
    forall i | 0 < i < |after| ensures after[i] == order[i - 1] { }
  }

  lemma MirrorsMoved(order: seq<CacheItem>, after: seq<CacheItem>, held: seq<Stored>, heldAfter: seq<Stored>, i: nat)
    requires Mirrors(order, held) && i < |order| && IsMoved(order, after, i) && IsMoved(held, heldAfter, i)
    ensures Mirrors(after, heldAfter)
  {
  }

  lemma DistinctPushed(held: seq<Stored>, x: Stored)
    requires DistinctUrls(held) && !Holds(held, x.url)
    ensures DistinctUrls([x] + held)
  {
    forall j | 0 <= j < |held| ensures held[j].url != x.url {
      assert held[j] in held;
    }
  }

  lemma DistinctMoved(held: seq<Stored>, heldAfter: seq<Stored>, i: nat)
    requires DistinctUrls(held) && i < |held| && IsMoved(held, heldAfter, i)
    ensures DistinctUrls(heldAfter)
  {
  }

  lemma HeldMoved(held: seq<Stored>, i: nat)
    requires DistinctUrls(held) && i < |held|
    ensures Moved(held, i) == [held[i]] + Without(held, held[i].url)
  {
    WithoutKeepsOrder(held, i);
  }

  lemma TouchMoves(entries: map<string, CacheItem>, order: seq<CacheItem>, held: seq<Stored>, i: nat)
    requires Linked(entries, order) && Mirrors(order, held) && DistinctUrls(held) && i < |order|
    ensures Linked(entries, Moved(order, i)) && Mirrors(Moved(order, i), Moved(held, i)) && DistinctUrls(Moved(held, i))
    ensures Holds(held, order[i].url)
    ensures Moved(held, i) == [Stored(order[i].url, Find(held, order[i].url))] + Without(held, order[i].url)
  {
    MovedElements(order, i);
    MovedElements(held, i);
    LinkedMoved(entries, order, Moved(order, i), i);
    MirrorsMoved(order, Moved(order, i), held, Moved(held, i), i);
    DistinctMoved(held, Moved(held, i), i);
    HeldMoved(held, i);
    FindAt(held, i);
  }

  method PullFront(entries: map<string, CacheItem>, order: seq<CacheItem>, ghost held: seq<Stored>, i: nat)
    returns (front: seq<CacheItem>, ghost heldFront: seq<Stored>)
    requires Linked(entries, order) && Mirrors(order, held) && DistinctUrls(held) && i < |order|
    ensures Linked(entries, front) && Mirrors(front, heldFront) && DistinctUrls(heldFront)
    ensures |front| == |order| && front[0] == order[i]
    ensures Holds(held, order[i].url)
    ensures heldFront == [Stored(order[i].url, Find(held, order[i].url))] + Without(held, order[i].url)
  {
    TouchMoves(entries, order, held, i);
    front, heldFront := Moved(order, i), Moved(held, i);
  }

  lemma Missing(entries: map<string, CacheItem>, order: seq<CacheItem>, held: seq<Stored>, url: string)
    requires Linked(entries, order) && Mirrors(order, held) && url !in entries
    ensures !Holds(held, url) && Without(held, url) == held
  {
    forall x | x in held ensures x.url != url {
      var i :| 0 <= i < |order| && held[i] == x;
      assert order[i].url in entries;
    }
    WithoutAbsent(held, url);
  }

  class ICSCache {
    var entries: map<string, CacheItem>
    /** Most recently used first. */
    var order: seq<CacheItem>
    const maxEntries: nat
    ghost var held: seq<Stored>

    ghost predicate Valid()
      reads this, order
    {
      1 <= maxEntries && |order| <= maxEntries && Linked(entries, order) && Mirrors(order, held) && DistinctUrls(held)
    }

    /** With a capacity below one, the eviction loop of the first Set would not end. */
    constructor (maxEntries: nat)
      requires maxEntries >= 1
      ensures Valid() && held == [] && this.maxEntries == maxEntries
    {
      this.entries, this.order, this.maxEntries, this.held := map[], [], maxEntries, [];
    }

    /** The list's MoveToFront, by the element the map gives for a URL. */
    method MoveToFront(url: string)
      requires Valid() && url in entries
      modifies this`order, this`held
      ensures Valid() && order != [] && order[0] == entries[url]
      ensures order[0] in old(order) && order[0].url == url
      ensures Holds(old(held), url) && held == [Stored(url, Find(old(held), url))] + Without(old(held), url)
    {
      var elem := entries[url];
      var i: nat :| i < |order| && order[i] == elem;
      order, held := PullFront(entries, order, held, i);
    }

    method Get(url: string) returns (found: Option<Entry>)
      requires Valid()
      modifies this`order, this`held
      ensures Valid() && held == Kept(old(held), maxEntries, Op.Get(url))
      ensures found == if Holds(old(held), url) then Some(Find(old(held), url)) else None
    {
      if url !in entries {
        Missing(entries, order, held, url);
        return None;
      }
      MoveToFront(url);
      found := Some(entries[url].entry);
    }

    method EvictOldest()
      requires Valid() && order != []
      modifies this
      ensures Valid() && held == old(held)[..|old(held)| - 1]
      ensures entries.Keys <= old(entries).Keys
    {
      LinkedDropped(entries, order);
      var elem := order[|order| - 1];
      entries := entries - {elem.url};
      order, held := order[..|order| - 1], held[..|held| - 1];
    }

    method Set(url: string, entry: Entry)
      requires Valid()
      modifies this, order
      ensures Valid() && held == Kept(old(held), maxEntries, Op.Set(url, entry))
    {
      if url in entries {
        Refresh(url, entry);
      } else {
        Insert(url, entry);
      }
    }

    method Refresh(url: string, entry: Entry)
      requires Valid() && url in entries
      modifies this, order
      ensures Valid() && held == Kept(old(held), maxEntries, Op.Set(url, entry))
    {
      MoveToFront(url);
      TakeAll([Stored(url, entry)] + held[1..], maxEntries);
      ReplaceFront(entry);
    }

    method Insert(url: string, entry: Entry)
      requires Valid() && url !in entries
      modifies this
      ensures Valid() && held == Kept(old(held), maxEntries, Op.Set(url, entry))
    {
      Missing(entries, order, held, url);
      TakeCons(Stored(url, entry), held, maxEntries);
      MakeRoom(url);
      PushFront(url, entry);
    }

    /** Writes through the element the map and the list share. */
    method ReplaceFront(entry: Entry)
      requires Valid() && order != []
      modifies this`held, order[0]
      ensures Valid() && held == [Stored(order[0].url, entry)] + old(held)[1..]
    {
      order[0].entry := entry;
      held := [Stored(order[0].url, entry)] + held[1..];
    }

    /** Evicts the oldest entries until one more fits. */
    method MakeRoom(url: string)
      requires Valid() && url !in entries
      modifies this
      ensures Valid() && url !in entries && |order| < maxEntries
      ensures held == Take(old(held), maxEntries - 1)
    {
      while |order| >= maxEntries
        invariant Valid() && url !in entries
        invariant held <= old(held) && |held| >= if |old(held)| < maxEntries then |old(held)| else maxEntries - 1
        decreases |order|
      {
        EvictOldest();
      }
    }

    method PushFront(url: string, entry: Entry)
      requires Valid() && url !in entries && |order| < maxEntries
      modifies this
      ensures Valid() && held == [Stored(url, entry)] + old(held)
    {
      Missing(entries, order, held, url);
      var elem := new CacheItem(url, entry);
      LinkedPushed(entries, order, elem);
      MirrorsPushed(order, held, elem);
      DistinctPushed(held, Stored(url, entry));
      order := [elem] + order;
      entries := entries[url := elem];
      held := [Stored(url, entry)] + held;
    }

    method Clear()
      requires Valid()
      modifies this
      ensures Valid() && held == Kept(old(held), maxEntries, Op.Clear)
    {
      entries, order, held := map[], [], [];
    }
  }
}
