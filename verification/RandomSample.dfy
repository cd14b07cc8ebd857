/** The proportional draw behind a cross-entity ORDER BY RANDOM()
    (proportionalRandomItems in application_context/mrql_context.go). */
module RandomSample {
  import opened CrossEntityOrder

  /** One number per entity type. */
  datatype Counts = Counts(resource: nat, note: nat, group: nat) {
    function Of(kind: EntityKind): nat {
      match kind
      case Resource => resource
      case Note => note
      case Group => group
    }

    function With(kind: EntityKind, n: nat): Counts {
      match kind
      case Resource => this.(resource := n)
      case Note => this.(note := n)
      case Group => this.(group := n)
    }

    /** No type has more here than in other. */
    predicate Within(other: Counts) {
      resource <= other.resource && note <= other.note && group <= other.group
    }

    function Total(): nat {
      resource + note + group
    }
  }

  /** The weight of a type: a short slice is its whole population; a slice at the cap is
      counted, and a failed or smaller count falls back to what was fetched. */
  function TrueCount(fetched: nat, perEntityCap: nat, counted: int): (n: nat)
    ensures fetched <= n
  {
    if fetched < perEntityCap || counted < fetched then fetched else counted
  }

  /** The type a draw r out of the remaining total falls on. */
  function Choose(remaining: Counts, r: nat): EntityKind {
    if r < remaining.resource then Resource
    else if r < remaining.resource + remaining.note then Note
    else Group
  }

  /** Types own consecutive stretches of the remaining weights, in a fixed order. */
  predicate FallsOn(w: Counts, kind: EntityKind, r: nat) {
    match kind
    case Resource => r < w.resource
    case Note => w.resource <= r < w.resource + w.note
    case Group => w.resource + w.note <= r < w.resource + w.note + w.group
  }

  lemma ChosenIsFallenOn(w: Counts, r: nat, kind: EntityKind)
    requires r < w.Total()
    ensures FallsOn(w, kind, r) <==> kind == Choose(w, r)
  {
  }

  function Draws(remaining: Counts, kind: EntityKind): set<nat> {
    set r: nat | 0 <= r < remaining.Total() && FallsOn(remaining, kind, r)
  }

  predicate Between(lo: nat, r: nat, hi: nat) {
    lo <= r < hi
  }

  function Interval(lo: nat, hi: nat): set<nat> {
    set r: nat | 0 <= r < hi && Between(lo, r, hi)
  }

  lemma {:induction false} IntervalSize(lo: nat, hi: nat)
    requires lo <= hi
    ensures |Interval(lo, hi)| == hi - lo
    decreases hi
  {
    if lo < hi {
      IntervalSize(lo, hi - 1);
      assert Between(lo, hi - 1, hi);
      assert forall r :: r in Interval(lo, hi - 1) ==> Between(lo, r, hi);
      assert Interval(lo, hi) == Interval(lo, hi - 1) + {hi - 1};
    } else {
      assert Interval(lo, hi) == {};
    }
  }

  /** Proportionality: of the equally likely draws, exactly as many fall on a type as it
      has rows left; in particular a type with none left is never drawn. */
  lemma DrawsAreProportional(remaining: Counts, kind: EntityKind)
    ensures |Draws(remaining, kind)| == remaining.Of(kind)
  {
    var a, b, c := remaining.resource, remaining.resource + remaining.note, remaining.Total();
    match kind
    case Resource =>
      IntervalSize(0, a);
      assert Draws(remaining, kind) == Interval(0, a);
    case Note =>
      IntervalSize(a, b);
      assert Draws(remaining, kind) == Interval(a, b);
    case Group =>
      IntervalSize(b, c);
      assert Draws(remaining, kind) == Interval(b, c);
  }

  // ---- the run of draws ----

  /** The state between two draws. */
  datatype Pool = Pool(take: Counts, remaining: Counts)

  /** One draw. The type it falls on gives a row, if it has been fetched, and otherwise
      loses its weight; the other two types are as before. */
  ghost predicate Turn(avail: Counts, p: Pool, r: nat, q: Pool) {
    var Pool(Counts(tr, tn, tg), Counts(wr, wn, wg)) := p;
    && (r < wr ==>
          q == if tr < avail.resource then Pool(Counts(tr + 1, tn, tg), Counts(wr - 1, wn, wg))
               else Pool(Counts(tr, tn, tg), Counts(0, wn, wg)))
    && (wr <= r < wr + wn ==>
          q == if tn < avail.note then Pool(Counts(tr, tn + 1, tg), Counts(wr, wn - 1, wg))
               else Pool(Counts(tr, tn, tg), Counts(wr, 0, wg)))
    && (wr + wn <= r < wr + wn + wg ==>
          q == if tg < avail.group then Pool(Counts(tr, tn, tg + 1), Counts(wr, wn, wg - 1))
               else Pool(Counts(tr, tn, tg), Counts(wr, wn, 0)))
  }

  /** The pools these draws pass through, from the full weights on. */
  ghost predicate IsRun(avail: Counts, population: Counts, pools: seq<Pool>, draws: seq<nat>) {
    && |pools| == |draws| + 1 && pools[0] == Pool(Counts(0, 0, 0), population)
    && (forall i :: 0 <= i < |draws| ==>
          && draws[i] < pools[i].remaining.resource + pools[i].remaining.note + pools[i].remaining.group
          && Turn(avail, pools[i], draws[i], pools[i + 1]))
  }

  /** How many of the first n draws fell on a type while it had a fetched row left. */
  function Honoured(avail: Counts, pools: seq<Pool>, draws: seq<nat>, kind: EntityKind, n: nat): nat
    requires n <= |draws| < |pools|
  {
    if n == 0 then 0
    else
      var p := pools[n - 1];
      Honoured(avail, pools, draws, kind, n - 1) +
      if FallsOn(p.remaining, kind, draws[n - 1]) && p.take.Of(kind) < avail.Of(kind) then 1 else 0
  }

  /** What a type gives is exactly the draws that fell on it and could be honoured. */
  lemma {:induction false} TakeIsHonouredDraws(avail: Counts, population: Counts, pools: seq<Pool>, draws: seq<nat>,
    kind: EntityKind, n: nat)
    requires IsRun(avail, population, pools, draws) && n <= |draws|
    ensures pools[n].take.Of(kind) == Honoured(avail, pools, draws, kind, n)
  {
    if n > 0 {
      TakeIsHonouredDraws(avail, population, pools, draws, kind, n - 1);
      assert Turn(avail, pools[n - 1], draws[n - 1], pools[n]);
    }
  }

  lemma RunOneMore(avail: Counts, population: Counts, pools: seq<Pool>, draws: seq<nat>, r: nat, next: Pool)
    requires IsRun(avail, population, pools, draws)
    requires var w := pools[|draws|].remaining; r < w.resource + w.note + w.group
    requires Turn(avail, pools[|draws|], r, next)
    ensures IsRun(avail, population, pools + [next], draws + [r])
  {
  }

  /** No type has given more rows than were fetched, and every fetched row is either
      drawn or still has weight. */
  ghost predicate Covers(avail: Counts, take: Counts, remaining: Counts) {
    && take.resource <= avail.resource <= take.resource + remaining.resource
    && take.note <= avail.note <= take.note + remaining.note
    && take.group <= avail.group <= take.group + remaining.group
  }

  /** A draw never falls on a type with no rows left; that is what makes giving a pick
      back safe. */
  lemma ChosenHasRows(remaining: Counts, r: nat)
    requires r < remaining.Total()
    ensures remaining.Of(Choose(remaining, r)) > 0
  {
  }

  lemma RetireKeepsCover(avail: Counts, take: Counts, remaining: Counts, e: EntityKind)
    requires Covers(avail, take, remaining) && take.Of(e) >= avail.Of(e)
    ensures Covers(avail, take, remaining.With(e, 0))
    ensures remaining.With(e, 0).Total() == remaining.Total() - remaining.Of(e)
  {
  }

  lemma TakeKeepsCover(avail: Counts, take: Counts, remaining: Counts, e: EntityKind)
    requires Covers(avail, take, remaining) && take.Of(e) < avail.Of(e) && remaining.Of(e) > 0
    ensures Covers(avail, take.With(e, take.Of(e) + 1), remaining.With(e, remaining.Of(e) - 1))
    ensures remaining.With(e, remaining.Of(e) - 1).Total() == remaining.Total() - 1
    ensures take.With(e, take.Of(e) + 1).Total() == take.Total() + 1
  {
  }

  /** rand.IntN: some number below n, nothing more is known about it. */
  method IntN(n: nat) returns (r: nat)
    requires n > 0
    ensures r < n
  {
    r :| r < n;
  }

  /** One turn of the redraw loop: take a row of the drawn type, or retire the type. */
  method DrawOne(avail: Counts, take0: Counts, remaining0: Counts, total0: nat, r: nat)
    returns (take: Counts, remaining: Counts, total: nat, drawn: bool)
    requires Covers(avail, take0, remaining0) && total0 == remaining0.Total()
    requires r < total0
    ensures Covers(avail, take, remaining) && total == remaining.Total() < total0
    ensures take.Total() == take0.Total() + if drawn then 1 else 0
    ensures Turn(avail, Pool(take0, remaining0), r, Pool(take, remaining))
  {
    take, remaining, total := take0, remaining0, total0;
    var chosen := Choose(remaining, r);
    ChosenHasRows(remaining, r);
    drawn := take.Of(chosen) < avail.Of(chosen);
    if !drawn {
      RetireKeepsCover(avail, take, remaining, chosen);
      total := total - remaining.Of(chosen);
      remaining := remaining.With(chosen, 0);
    } else {
      TakeKeepsCover(avail, take, remaining, chosen);
      take := take.With(chosen, take.Of(chosen) + 1);
      remaining := remaining.With(chosen, remaining.Of(chosen) - 1);
      total := total - 1;
    }
  }

  /** Draws up to k rows without replacement. Whatever the random numbers are, the loop
      ends although a draw on an exhausted type gives its pick back, no type yields more
      rows than were fetched, and the total is exactly min(k, rows fetched). */
  method ProportionalTake(avail: Counts, population: Counts, k: nat)
    returns (take: Counts, ghost pools: seq<Pool>, ghost draws: seq<nat>)
    requires avail.Within(population)
    ensures take.Within(avail)
    ensures take.Total() == if k <= avail.Total() then k else avail.Total()
    ensures IsRun(avail, population, pools, draws) && pools[|draws|].take == take
  {
    take := Counts(0, 0, 0);
    var remaining := population;
    var total := remaining.Total();
    var picks := 0;
    pools, draws := [Pool(take, remaining)], [];
    while picks < k && total > 0
      invariant total == remaining.Total()
      invariant picks == take.resource + take.note + take.group && picks <= k
      invariant Covers(avail, take, remaining)
      invariant IsRun(avail, population, pools, draws) && pools[|draws|] == Pool(take, remaining)
      decreases total
    {
      var r := IntN(total);
      var drawn;
      take, remaining, total, drawn := DrawOne(avail, take, remaining, total, r);
      RunOneMore(avail, population, pools, draws, r, Pool(take, remaining));
      pools, draws := pools + [Pool(take, remaining)], draws + [r];
      if !drawn {
        picks := picks - 1;
      }
      picks := picks + 1;
    }
  }

  /** The weight a type must start with. */
  predicate IsTrueCount(n: nat, fetched: nat, perEntityCap: nat, counted: nat) {
    && (fetched < perEntityCap ==> n == fetched)
    && (fetched >= perEntityCap ==> n == if counted > fetched then counted else fetched)
  }

  /** The sample itself: of each type's already shuffled slice the first rows, as many as
      draws from the true counts fell on the type and could be honoured. */
  method ProportionalRandomItems(resources: seq<Row>, notes: seq<Row>, groups: seq<Row>,
        perEntityCap: nat, counted: Counts, k: nat)
    returns (items: seq<Item>, ghost take: Counts, ghost pools: seq<Pool>, ghost draws: seq<nat>)
    ensures |items| == if k <= |resources| + |notes| + |groups| then k else |resources| + |notes| + |groups|
    ensures pools != [] && IsRun(Counts(|resources|, |notes|, |groups|), pools[0].remaining, pools, draws)
    ensures pools[|draws|].take == take
    ensures IsTrueCount(pools[0].remaining.resource, |resources|, perEntityCap, counted.resource)
    ensures IsTrueCount(pools[0].remaining.note, |notes|, perEntityCap, counted.note)
    ensures IsTrueCount(pools[0].remaining.group, |groups|, perEntityCap, counted.group)
    ensures take.resource <= |resources| && take.note <= |notes| && take.group <= |groups|
    ensures |items| == take.resource + take.note + take.group
    ensures forall i :: 0 <= i < take.resource ==> items[i] == Item(Resource, resources[i], i)
    ensures forall i :: 0 <= i < take.note ==> items[take.resource + i] == Item(Note, notes[i], i)
    ensures forall i :: 0 <= i < take.group ==> items[take.resource + take.note + i] == Item(Group, groups[i], i)
  {
    var avail := Counts(|resources|, |notes|, |groups|);
    var population := Counts(
      TrueCount(|resources|, perEntityCap, counted.resource),
      TrueCount(|notes|, perEntityCap, counted.note),
      TrueCount(|groups|, perEntityCap, counted.group));
    var taken;
    taken, pools, draws := ProportionalTake(avail, population, k);
    take := taken;
    items := TakeFirst(resources, notes, groups, taken);
  }

  method TakeFirst(resources: seq<Row>, notes: seq<Row>, groups: seq<Row>, take: Counts) returns (items: seq<Item>)
    requires take.resource <= |resources| && take.note <= |notes| && take.group <= |groups|
    ensures |items| == take.resource + take.note + take.group
    ensures forall i :: 0 <= i < take.resource ==> items[i] == Item(Resource, resources[i], i)
    ensures forall i :: 0 <= i < take.note ==> items[take.resource + i] == Item(Note, notes[i], i)
    ensures forall i :: 0 <= i < take.group ==> items[take.resource + take.note + i] == Item(Group, groups[i], i)
  {
    items := [];
    for i := 0 to take.resource
      invariant items == Prefix(Resource, resources, i)
    {
      items := items + [Item(Resource, resources[i], i)];
    }
    for i := 0 to take.note
      invariant items == Prefix(Resource, resources, take.resource) + Prefix(Note, notes, i)
    {
      items := items + [Item(Note, notes[i], i)];
    }
    for i := 0 to take.group
      invariant items == Prefix(Resource, resources, take.resource) + Prefix(Note, notes, take.note)
                       + Prefix(Group, groups, i)
    {
      items := items + [Item(Group, groups[i], i)];
    }
  }

  function Prefix(kind: EntityKind, rows: seq<Row>, n: nat): (items: seq<Item>)
    requires n <= |rows|
    ensures |items| == n
  {
    seq(n, i requires 0 <= i < n => Item(kind, rows[i], i))
  }
}
