/** The fixed-window limiter of query generation (application_context/mrql_generation_rate_limiter.go).
    Instant 0 is the zero time. */
module RateLimiter {

  datatype Bucket = Bucket(start: int, count: int)

  const ZERO: Bucket := Bucket(0, 0)

  predicate Opens(b: Bucket, window: int, now: int) {
    b.start == 0 || now - b.start >= window
  }

  predicate Grants(b: Bucket, max: int, window: int, now: int) {
    Opens(b, window, now) || b.count < max
  }

  function After(b: Bucket, max: int, window: int, now: int): Bucket {
    if Opens(b, window, now) then Bucket(now, 1)
    else if b.count >= max then b
    else b.(count := b.count + 1)
  }

  /** A key that is not in the map reads as the zero bucket. */
  function Lookup(keys: map<string, Bucket>, key: string): Bucket {
    if key in keys then keys[key] else ZERO
  }

  class MRQLGenerationRateLimiter {
    const max: int
    const window: int
    var keys: map<string, Bucket>

    constructor (max: int, window: int)
      ensures this.max == max && this.window == window && keys == map[]
    {
      this.max, this.window, this.keys := max, window, map[];
    }

    method Allow(key: string, now: int) returns (ok: bool)
      modifies this`keys
      ensures
        var b := if key in old(keys) then old(keys)[key] else Bucket(0, 0);
        var opens := b.start == 0 || now - b.start >= window;
        && (ok <==> opens || b.count < max)
        && keys == old(keys)[key := if opens then Bucket(now, 1) else if ok then Bucket(b.start, b.count + 1) else b]
    {
      var b := if key in keys then keys[key] else ZERO;
      if b.start == 0 || now - b.start >= window {
        keys := keys[key := Bucket(now, 1)];
        return true;
      }
      if b.count >= max {
        assert key in keys;
        return false;
      }
      b := b.(count := b.count + 1);
      keys := keys[key := b];
      ok := true;
    }
  }

  // ---- runs ----

  datatype Call = Call(key: string, now: int)

  /** The map after a run of calls, and the bucket it has for one key. */
  function KeysAfter(calls: seq<Call>, max: int, window: int): map<string, Bucket> {
    if calls == [] then map[]
    else
      var before, call := KeysAfter(calls[..|calls| - 1], max, window), calls[|calls| - 1];
      before[call.key := After(Lookup(before, call.key), max, window, call.now)]
  }

  function BucketAfter(calls: seq<Call>, key: string, max: int, window: int): Bucket {
    Lookup(KeysAfter(calls, max, window), key)
  }

  predicate Allowed(calls: seq<Call>, i: nat, max: int, window: int)
    requires i < |calls|
  {
    Grants(BucketAfter(calls[..i], calls[i].key, max, window), max, window, calls[i].now)
  }

  /** How many calls of a key a run allowed in the half-open interval from a to b. */
  function Count(calls: seq<Call>, key: string, max: int, window: int, a: int, b: int): nat {
    if calls == [] then 0
    else
      var n := |calls| - 1;
      Count(calls[..n], key, max, window, a, b) +
      if calls[n].key == key && a <= calls[n].now < b && Allowed(calls, n, max, window) then 1 else 0
  }

  /** The clock never runs backwards, and never reads the zero time. */
  predicate Ordered(calls: seq<Call>) {
    && (forall i :: 0 <= i < |calls| ==> calls[i].now != 0)
    && (forall i, j :: 0 <= i < j < |calls| ==> calls[i].now <= calls[j].now)
  }

  function Cap(max: int): nat {
    if max < 1 then 1 else max
  }

  lemma {:induction false} CountSplits(calls: seq<Call>, key: string, max: int, window: int, a: int, m: int, b: int)
    requires a <= m <= b
    ensures Count(calls, key, max, window, a, b) ==
      Count(calls, key, max, window, a, m) + Count(calls, key, max, window, m, b)
  {
    if calls != [] {
      CountSplits(calls[..|calls| - 1], key, max, window, a, m, b);
    }
  }

  lemma {:induction false} NoneWithin(calls: seq<Call>, key: string, max: int, window: int, a: int, b: int)
    requires forall i :: 0 <= i < |calls| && calls[i].key == key ==> !(a <= calls[i].now < b)
    ensures Count(calls, key, max, window, a, b) == 0
  {
    if calls != [] {
      NoneWithin(calls[..|calls| - 1], key, max, window, a, b);
    }
  }

  /** The bucket's own account of the run so far: it first at some call's instant, all of
      the key's calls lie before its end, and it counts exactly those allowed since it first. */
  ghost predicate BucketInv(calls: seq<Call>, key: string, max: int, window: int) {
    var bucket := BucketAfter(calls, key, max, window);
    && (bucket.start != 0 ==> exists i :: 0 <= i < |calls| && calls[i].key == key && calls[i].now == bucket.start)
    && (forall i :: 0 <= i < |calls| && calls[i].key == key ==>
          bucket.start != 0 && calls[i].now < bucket.start + window)
    && (bucket.start != 0 ==> Count(calls, key, max, window, bucket.start, bucket.start + window) == bucket.count)
    && 0 <= bucket.count <= Cap(max)
  }

  /** The stretch of less than a window before the bucket holds at most one bucket's worth,
      and any window from a at most two. */
  ghost predicate WindowInv(calls: seq<Call>, key: string, max: int, window: int, a: int) {
    var bucket := BucketAfter(calls, key, max, window);
    && (bucket.start != 0 && bucket.start - window < a <= bucket.start ==>
          Count(calls, key, max, window, a, bucket.start) <= Cap(max))
    && Count(calls, key, max, window, a, a + window) <= 2 * Cap(max)
  }

  lemma BeyondBucket(calls: seq<Call>, key: string, max: int, window: int, a: int, b: int)
    requires BucketInv(calls, key, max, window) && window > 0 && a <= b
    requires var s := BucketAfter(calls, key, max, window).start; s == 0 || s + window <= a
    ensures Count(calls, key, max, window, a, b) == 0
  {
    NoneWithin(calls, key, max, window, a, b);
  }

  /** From the opening of the bucket on, or from any later instant, at most a bucket's worth. */
  lemma WithinBucket(calls: seq<Call>, key: string, max: int, window: int, a: int, b: int)
    requires BucketInv(calls, key, max, window) && window > 0 && a <= b
    requires BucketAfter(calls, key, max, window).start <= a
    ensures Count(calls, key, max, window, a, b) <= Cap(max)
  {
    var s := BucketAfter(calls, key, max, window).start;
    if s == 0 || s + window <= a {
      BeyondBucket(calls, key, max, window, a, b);
    } else {
      var m := if b < s + window then b else s + window;
      BeyondBucket(calls, key, max, window, s + window, s + window + b - m);
      CountSplits(calls, key, max, window, a, m, b);
      CountSplits(calls, key, max, window, s, a, s + window);
      CountSplits(calls, key, max, window, a, m, s + window);
    }
  }

  lemma BucketStep(calls: seq<Call>, key: string, max: int, window: int)
    requires calls != [] && Ordered(calls) && window > 0
    requires BucketInv(calls[..|calls| - 1], key, max, window)
    ensures BucketInv(calls, key, max, window)
  {
    var n := |calls| - 1;
    var init, t := calls[..n], calls[n].now;
    var before, after := BucketAfter(init, key, max, window), BucketAfter(calls, key, max, window);
    assert forall i :: 0 <= i < n ==> init[i] == calls[i];
    if calls[n].key == key {
      assert calls[n].now == t;
      if Opens(before, window, t) {
        BeyondBucket(init, key, max, window, t, t + window);
      }
    }
  }

  lemma WindowStep(calls: seq<Call>, key: string, max: int, window: int, a: int)
    requires calls != [] && Ordered(calls) && window > 0
    requires BucketInv(calls[..|calls| - 1], key, max, window) && WindowInv(calls[..|calls| - 1], key, max, window, a)
    ensures WindowInv(calls, key, max, window, a)
  {
    BucketStep(calls, key, max, window);
    var n := |calls| - 1;
    var init, t := calls[..n], calls[n].now;
    var before, after := BucketAfter(init, key, max, window), BucketAfter(calls, key, max, window);
    if calls[n].key == key && Opens(before, window, t) {
      OpeningStep(calls, key, max, window, a);
    } else if calls[n].key == key && before.count < max {
      assert before.start <= t < before.start + window;
      if a <= t < a + window {
        if a <= before.start {
          CountSplits(calls, key, max, window, a, before.start, a + window);
          WithinBucket(calls, key, max, window, before.start, a + window);
        } else {
          WithinBucket(calls, key, max, window, a, a + window);
        }
      }
    }
  }

  lemma OpeningStep(calls: seq<Call>, key: string, max: int, window: int, a: int)
    requires calls != [] && Ordered(calls) && window > 0 && calls[|calls| - 1].key == key
    requires BucketInv(calls[..|calls| - 1], key, max, window) && WindowInv(calls[..|calls| - 1], key, max, window, a)
    requires BucketInv(calls, key, max, window)
    requires Opens(BucketAfter(calls[..|calls| - 1], key, max, window), window, calls[|calls| - 1].now)
    ensures WindowInv(calls, key, max, window, a)
  {
    var n := |calls| - 1;
    var init, t := calls[..n], calls[n].now;
    if t - window < a <= t {
      if BucketAfter(init, key, max, window).start == 0 {
        BeyondBucket(init, key, max, window, a, t);
      } else {
        WithinBucket(init, key, max, window, a, t);
      }
      CountSplits(calls, key, max, window, a, t, a + window);
      WithinBucket(calls, key, max, window, t, a + window);
    }
  }

  /** Rate bound: however calls of all keys interleave, any interval of one window length
      contains at most two buckets' worth of allowed calls of a key. */
  lemma {:induction false} RateBound(calls: seq<Call>, key: string, max: int, window: int, a: int)
    requires Ordered(calls) && window > 0
    ensures BucketInv(calls, key, max, window)
    ensures Count(calls, key, max, window, a, a + window) <= 2 * Cap(max)
    ensures WindowInv(calls, key, max, window, a)
  {
    if calls != [] {
      RateBound(calls[..|calls| - 1], key, max, window, a);
      BucketStep(calls, key, max, window);
      WindowStep(calls, key, max, window, a);
    }
  }

  /** And nothing is refused before its bucket is full: a refused call has an opening call of
      its key less than a window before it, since which exactly max of its key were allowed. */
  lemma RefusedOnlyWhenFull(calls: seq<Call>, i: nat, max: int, window: int) returns (first: nat)
    requires Ordered(calls) && window > 0 && max >= 1 && i < |calls| && !Allowed(calls, i, max, window)
    ensures first < i && calls[first].key == calls[i].key
    ensures calls[i].now - window < calls[first].now <= calls[i].now
    ensures Count(calls[..i], calls[i].key, max, window, calls[first].now, calls[first].now + window) == max
  {
    var key := calls[i].key;
    RateBound(calls[..i], key, max, window, 0);
    var bucket := BucketAfter(calls[..i], key, max, window);
    first :| 0 <= first < i && calls[..i][first].key == key && calls[..i][first].now == bucket.start;
    assert calls[..i][first] == calls[first];
  }

  /** Keys never affect each other: a key's bucket, and so every decision about it, is
      what it would be had only that key called. */
  lemma {:induction false} KeysAreIndependent(calls: seq<Call>, key: string, max: int, window: int)
    ensures BucketAfter(calls, key, max, window) == BucketAfter(OnlyKey(calls, key), key, max, window)
  {
    if calls != [] {
      var init, last := calls[..|calls| - 1], calls[|calls| - 1];
      KeysAreIndependent(init, key, max, window);
      if last.key == key {
        var only := OnlyKey(init, key) + [last];
        assert OnlyKey(calls, key) == only && only[..|only| - 1] == OnlyKey(init, key);
      }
    }
  }

  function OnlyKey(calls: seq<Call>, key: string): seq<Call> {
    if calls == [] then []
    else
      var rest, last := OnlyKey(calls[..|calls| - 1], key), calls[|calls| - 1];
      if last.key == key then rest + [last] else rest
  }

  /** A limit below one does not stop the first call of a window. */
  lemma FirstCallAlwaysAllowed(call: Call, max: int, window: int)
    requires max < 1
    ensures Allowed([call], 0, max, window)
  {
    assert [call][..0] == [];
  }

  /** Why the clock must not read the zero time: a bucket first then opens again at every
      call, so nothing is ever refused. */
  lemma {:induction false} ZeroTimeIsNeverLimited(calls: seq<Call>, i: nat, max: int, window: int)
    requires i < |calls| && forall k :: 0 <= k < |calls| ==> calls[k].now == 0
    ensures Allowed(calls, i, max, window)
  {
    StartStaysZero(calls[..i], calls[i].key, max, window);
  }

  lemma {:induction false} StartStaysZero(calls: seq<Call>, key: string, max: int, window: int)
    requires forall k :: 0 <= k < |calls| ==> calls[k].now == 0
    ensures BucketAfter(calls, key, max, window).start == 0
  {
    if calls != [] {
      StartStaysZero(calls[..|calls| - 1], key, max, window);
    }
  }
}
