/** Lists: prefixes, as the LIMIT of a query that may have fewer rows, repetition, and the
    lexicographic order. */
module Sequences {
  function Take<T>(s: seq<T>, k: nat): seq<T> {
    if k <= |s| then s[..k] else s
  }

  predicate Distinct<T(==)>(s: seq<T>) {
    forall i, j :: 0 <= i < j < |s| ==> s[i] != s[j]
  }

  lemma TakeCons<T>(x: T, s: seq<T>, k: nat)
    requires k > 0
    ensures Take([x] + s, k) == [x] + Take(s, k - 1)
  {
  }

  lemma TakeAll<T>(s: seq<T>, k: nat)
    requires |s| <= k
    ensures Take(s, k) == s
  {
  }

  lemma TakeTake<T>(s: seq<T>, k: nat, m: nat)
    requires k <= m
    ensures Take(Take(s, m), k) == Take(s, k)
  {
  }

  /** Byte-wise lexicographic order: the first difference decides, and a prefix comes first. */
  ghost predicate LexBelow(a: string, b: string) {
    exists k: nat :: LexBelowAt(a, b, k)
  }

  predicate LexBelowAt(a: string, b: string, k: nat) {
    k <= |a| && k < |b| && a[..k] == b[..k] && (k == |a| || a[k] < b[k])
  }

  lemma PrefixHeads(a: string, b: string, k: nat)
    requires k <= |a| && k <= |b| && a[..k] == b[..k]
    ensures k > 0 ==> a[0] == b[0]
  {
    if k > 0 { assert a[..k][0] == b[..k][0]; }
  }

  lemma LexBelowTail(a: string, b: string)
    requires a != [] && b != [] && a[0] == b[0]
    ensures LexBelow(a, b) <==> LexBelow(a[1..], b[1..])
  {
    if k: nat :| LexBelowAt(a, b, k) {
      assert k > 0;
      assert a[1..][..k - 1] == a[..k][1..] && b[1..][..k - 1] == b[..k][1..];
      assert LexBelowAt(a[1..], b[1..], k - 1);
    }
    if k: nat :| LexBelowAt(a[1..], b[1..], k) {
      assert a[..k + 1] == [a[0]] + a[1..][..k] && b[..k + 1] == [b[0]] + b[1..][..k];
      assert LexBelowAt(a, b, k + 1);
    }
  }
}
