/** Pagination bounds of MRQL execution (application_context/mrql_execution_policy.go
    and the request override in application_context/mrql_context.go).

    Machine integers are the subset type GoInt. Every intermediate value the Go code
    stores in an int is given that type here, so verifying the bodies also proves that
    none of the arithmetic overflows, except for the sum an error message reports, which
    wraps around under a large enough policy. */
module ExecutionPolicy {
  import opened Outcomes

  const MAX_INT: int := 0x7fff_ffff_ffff_ffff
  const MAX_BUCKETS: int := 1000

  type GoInt = x: int | -0x8000_0000_0000_0000 <= x <= 0x7fff_ffff_ffff_ffff

  datatype BoundField = LimitField | OffsetField | BucketLimitField | OffsetPlusLimitField

  datatype LimitError = LimitError(field: BoundField, value: GoInt, max: GoInt)

  datatype Policy = Policy(maxLimit: GoInt, maxOffset: GoInt)

  const INTERACTIVE_POLICY := Policy(10_000, 10_000)
  const EXPORT_POLICY := Policy(10_000, 10_000)

  /** The pagination part of a parsed query. A negative value means the clause is absent. */
  datatype Query = Query(limit: GoInt, offset: GoInt, bucketLimit: GoInt)

  datatype Window = Window(limit: GoInt, offset: GoInt, perEntityCap: GoInt)

  function Min(a: GoInt, b: GoInt): GoInt {
    if a < b then a else b
  }

  function Max(a: GoInt, b: GoInt): GoInt {
    if a > b then a else b
  }

  /** Two's complement: the machine integer an overflowing sum leaves. */
  function Wrap(x: int): (r: GoInt)
    ensures (x - r) % 0x1_0000_0000_0000_0000 == 0
    ensures -0x8000_0000_0000_0000 <= x <= MAX_INT ==> r == x
  {
    (x + 0x8000_0000_0000_0000) % 0x1_0000_0000_0000_0000 - 0x8000_0000_0000_0000
  }

  function ValidateBounds(q: Query, policy: Policy): (r: Option<LimitError>)
    ensures r.None? <==>
      q.limit <= policy.maxLimit && q.offset <= policy.maxOffset && q.bucketLimit <= MAX_BUCKETS
    ensures r.Some? ==> r.value.value > r.value.max
    ensures r.Some? ==> r.value in {LimitError(LimitField, q.limit, policy.maxLimit),
      LimitError(OffsetField, q.offset, policy.maxOffset), LimitError(BucketLimitField, q.bucketLimit, MAX_BUCKETS)}
  {
    if q.limit > policy.maxLimit then
      Some(LimitError(LimitField, q.limit, policy.maxLimit))
    else if q.offset > policy.maxOffset then
      Some(LimitError(OffsetField, q.offset, policy.maxOffset))
    else if q.bucketLimit > MAX_BUCKETS then
      Some(LimitError(BucketLimitField, q.bucketLimit, MAX_BUCKETS))
    else
      None
  }

  /** The global window and the per-type fetch cap of a cross-entity query. */
  function CrossEntityWindow(q: Query, defaultLimit: GoInt, policy: Policy): (r: Result<Window, LimitError>)
    requires defaultLimit > 0 && policy.maxLimit >= 0
    ensures r.Ok? ==>
      && 0 <= r.value.offset && 0 <= r.value.limit
      && r.value.perEntityCap == r.value.offset + r.value.limit
      && (q.limit >= 0 ==> r.value.limit == q.limit)
      && (q.limit < 0 ==> r.value.limit == if defaultLimit < policy.maxLimit then defaultLimit else policy.maxLimit)
      && r.value.offset == (if q.offset >= 0 then q.offset else 0)
  {
    match ValidateBounds(q, policy)
    case Some(e) => Err(e)
    case None =>
      var limit: GoInt := if q.limit >= 0 then q.limit else Min(defaultLimit, policy.maxLimit);
      var offset: GoInt := if q.offset >= 0 then q.offset else 0;
      var room: GoInt := MAX_INT - limit;
      if offset > room then
        Err(LimitError(OffsetPlusLimitField, MAX_INT, Wrap(policy.maxOffset + policy.maxLimit)))
      else
        var cap: GoInt := offset + limit;
        Ok(Window(limit, offset, cap))
  }

  /** Under a policy whose two maxima add up to a machine integer, as both shipped
      policies do, validation is the only reason a window is refused. */
  lemma WindowRefusedOnlyByBounds(q: Query, defaultLimit: GoInt, policy: Policy)
    requires defaultLimit > 0 && 0 <= policy.maxLimit && 0 <= policy.maxOffset
    requires policy.maxLimit + policy.maxOffset <= MAX_INT
    ensures CrossEntityWindow(q, defaultLimit, policy).Ok? <==> ValidateBounds(q, policy).None?
  {
    if ValidateBounds(q, policy).None? {
      var limit: GoInt := if q.limit >= 0 then q.limit else Min(defaultLimit, policy.maxLimit);
      var offset: GoInt := if q.offset >= 0 then q.offset else 0;
      assert offset <= MAX_INT - limit;
    }
  }

  /** The two policies the application runs with are of that kind. */
  lemma ShippedPoliciesRefuseOnlyByBounds(q: Query, defaultLimit: GoInt, policy: Policy)
    requires defaultLimit > 0 && policy in {INTERACTIVE_POLICY, EXPORT_POLICY}
    ensures CrossEntityWindow(q, defaultLimit, policy).Ok? <==> ValidateBounds(q, policy).None?
  {
    WindowRefusedOnlyByBounds(q, defaultLimit, policy);
  }

  lemma MulMonotone(a: int, b: int, c: int)
    requires 0 <= a <= b && 0 <= c
    ensures 0 <= a * c <= b * c
  {
  }

  lemma OneMore(p: nat, d: nat)
    ensures (p + 1) * d == p * d + d
  {
  }

  lemma QuotientBound(m: int, d: int, n: int)
    requires 0 <= m && 0 < d && 0 <= n
    ensures m <= n / d <==> m * d <= n
  {
    assert n == (n / d) * d + n % d;
    if m <= n / d {
      MulMonotone(m, n / d, d);
    } else {
      MulMonotone(n / d + 1, m, d);
    }
  }

  /** The row offset of a 1-based page. It is accepted exactly when the true product
      of page number and page size is within the bound, and then it is that product. */
  function CheckedPageOffset(page: GoInt, pageSize: GoInt, maxOffset: GoInt): (r: Result<GoInt, LimitError>)
    requires 0 <= maxOffset
    ensures r.Ok? <==> page < 1 || (0 <= pageSize && (page - 1) * pageSize <= maxOffset)
    ensures r.Ok? ==> r.value == if page < 1 then 0 else (page - 1) * pageSize
  {
    if page < 1 then
      Ok(0)
    else
      var multiplier: GoInt := page - 1;
      var limit: GoInt := MAX_INT / Max(1, pageSize);
      if pageSize < 0 || multiplier > limit then
        QuotientBoundFor(multiplier, pageSize);
        Err(LimitError(OffsetField, MAX_INT, maxOffset))
      else
        QuotientBoundFor(multiplier, pageSize);
        var offset: GoInt := multiplier * pageSize;
        if offset > maxOffset then
          Err(LimitError(OffsetField, offset, maxOffset))
        else
          Ok(offset)
  }

  lemma QuotientBoundFor(m: GoInt, size: GoInt)
    requires 0 <= m
    ensures 0 < size ==> (m <= MAX_INT / Max(1, size) <==> m * size <= MAX_INT)
    ensures size == 0 ==> m <= MAX_INT / Max(1, size) && m * size == 0
    ensures 0 <= size ==> 0 <= m * size
  {
    if 0 < size {
      QuotientBound(m, size, MAX_INT);
      MulMonotone(0, m, size);
    }
  }

  /** What a request's limit and page parameters turn the parsed clauses into.
      A limit or page that is not positive means "not provided". */
  function ResolveRequest(q: Query, limit: GoInt, page: GoInt, defaultLimit: GoInt, policy: Policy)
    : (r: Result<Query, LimitError>)
    requires defaultLimit > 0 && 0 <= policy.maxLimit && 0 <= policy.maxOffset
    ensures r.Ok? ==> 0 <= r.value.limit <= policy.maxLimit && r.value.offset <= policy.maxOffset
  {
    var sized := if limit > 0 then q.(limit := limit) else q;
    var effective := if sized.limit < 0 then Min(defaultLimit, policy.maxLimit) else sized.limit;
    var offset := if page >= 1 then CheckedPageOffset(page, effective, policy.maxOffset) else Ok(sized.offset);
    match offset
    case Err(e) => Err(e)
    case Ok(at) =>
      var resolved := sized.(offset := at, limit := effective);
      match ValidateBounds(resolved, policy)
      case Some(e) => Err(e)
      case None => Ok(resolved)
  }

  /** The rows a request ends up asking for: its own limit, else the query's, else the
      default; and the page's first row, else the query's offset. */
  lemma ResolvedRequest(q: Query, limit: GoInt, page: GoInt, defaultLimit: GoInt, policy: Policy, size: GoInt, at: int)
    requires defaultLimit > 0 && 0 <= policy.maxLimit && 0 <= policy.maxOffset
    requires size == if limit > 0 then limit else if q.limit >= 0 then q.limit
                     else if defaultLimit < policy.maxLimit then defaultLimit else policy.maxLimit
    requires at == if page >= 1 then (page - 1) * size else q.offset
    ensures var r := ResolveRequest(q, limit, page, defaultLimit, policy);
      && (r.Ok? <==> size <= policy.maxLimit && at <= policy.maxOffset && q.bucketLimit <= MAX_BUCKETS)
      && (r.Ok? ==> r.value.limit == size && r.value.offset == at && r.value.bucketLimit == q.bucketLimit)
  {
  }

  /** A request for page p of size s is accepted exactly when s and the offset of its
      first row are within the policy; it then asks for rows (p-1)*s up to p*s. */
  lemma PageRequest(q: Query, s: GoInt, p: GoInt, defaultLimit: GoInt, policy: Policy)
    requires defaultLimit > 0 && 0 <= policy.maxLimit && 0 <= policy.maxOffset
    requires s > 0 && p >= 1 && q.bucketLimit <= MAX_BUCKETS
    ensures var r := ResolveRequest(q, s, p, defaultLimit, policy);
      && (r.Ok? <==> s <= policy.maxLimit && (p - 1) * s <= policy.maxOffset)
      && (r.Ok? ==> r.value.limit == s && r.value.offset == (p - 1) * s)
  {
  }
}
