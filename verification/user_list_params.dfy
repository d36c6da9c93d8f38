/**
 `UserListParamsSchema`, the paging parameters of the user list: an integer
 `limit` between 1 and 100 (10 when absent) and an integer `cursor` of at
 least 0 (0 when absent). JavaScript numbers are modelled as reals; NaN and
 the infinities are not modelled.
 */
module UserListParams {
  import opened Wrappers

  /** A field's input value: a number, or a value of another type. */
  datatype Input = Number(n: real) | NotANumber

  /** The zod checks that can fail, in the order the schema lists them. */
  datatype Issue = ExpectedNumber | ExpectedInteger | TooSmall(minimum: int) | TooBig(maximum: int)

  datatype Params = Params(limit: int, cursor: int)

  const DefaultLimit := 10
  const DefaultCursor := 0
  const MinLimit := 1
  const MaxLimit := 100

  predicate IsInteger(x: real) {
    x.Floor as real == x
  }

  /** The issues of `z.number().int().min(lo)` and optionally `.max(hi)`, for a present value. */
  function NumberIssues(v: Input, lo: int, hi: Option<int>): (issues: seq<Issue>)
    ensures issues == [] <==> v.Number? && IsInteger(v.n) && v.n >= lo as real && (hi.Some? ==> v.n <= hi.value as real)
  {
    match v
    case NotANumber => [ExpectedNumber]
    case Number(x) =>
      (if !IsInteger(x) then [ExpectedInteger] else [])
      + (if x < lo as real then [TooSmall(lo)] else [])
      + (if hi.Some? && x > hi.value as real then [TooBig(hi.value)] else [])
  }

  /** One field: a default when absent, otherwise the value if every check passes. */
  function ParseField(v: Option<Input>, lo: int, hi: Option<int>, default: int): (r: Result<int, seq<Issue>>)
    ensures v.None? ==> r == Ok(default)
    ensures v.Some? ==> (r.Ok? <==> NumberIssues(v.value, lo, hi) == [])
    ensures v.Some? && r.Ok? ==> v.value == Number(r.value as real)
  {
    match v
    case None => Ok(default)
    case Some(x) =>
      var issues := NumberIssues(x, lo, hi);
      if issues == [] then Ok(x.n.Floor) else Err(issues)
  }

  /** `UserListParamsSchema.safeParse({ limit, cursor })`: the parameters, or every issue found. */
  function Parse(limit: Option<Input>, cursor: Option<Input>): (r: Result<Params, seq<Issue>>)
    ensures r.Ok? ==> MinLimit <= r.value.limit <= MaxLimit && r.value.cursor >= DefaultCursor
    ensures r.Ok? ==> (limit.None? ==> r.value.limit == DefaultLimit) && (cursor.None? ==> r.value.cursor == DefaultCursor)
    ensures r.Ok? ==> (limit.Some? ==> limit.value == Number(r.value.limit as real)) && (cursor.Some? ==> cursor.value == Number(r.value.cursor as real))
  {
    var l := ParseField(limit, MinLimit, Some(MaxLimit), DefaultLimit);
    var c := ParseField(cursor, 0, None, DefaultCursor);
    if l.Ok? && c.Ok? then Ok(Params(l.value, c.value))
    else Err((if l.Err? then l.error else []) + (if c.Err? then c.error else []))
  }

  /**
   A present limit is accepted exactly when it is an integer in [1, 100], and
   a present cursor exactly when it is an integer of at least 0.
   */
  lemma ParseAcceptsExactlyBounds(limit: Input, cursor: Input)
    ensures Parse(Some(limit), Some(cursor)).Ok? <==>
      && limit.Number? && IsInteger(limit.n) && 1.0 <= limit.n <= 100.0
      && cursor.Number? && IsInteger(cursor.n) && cursor.n >= 0.0
  {
  }

  /** The defaults satisfy the bounds, so an empty object always parses. */
  lemma EmptyObjectParses()
    ensures Parse(None, None) == Ok(Params(10, 0))
  {
  }

  /** An integer is accepted back unchanged when it is within the bounds. */
  lemma ParseRoundTrip(p: Params)
    requires MinLimit <= p.limit <= MaxLimit && p.cursor >= 0
    ensures Parse(Some(Number(p.limit as real)), Some(Number(p.cursor as real))) == Ok(p)
  {
    assert (p.limit as real).Floor == p.limit;
    assert (p.cursor as real).Floor == p.cursor;
  }
}
