/** The query building and result normalisation of api/Quiz/quiz.api.ts.
    The HTTP request itself is not modelled: its outcome is a parameter. */
module QuizApi {
  import opened Common

  datatype CategoryId = NumId(n: int) | TextId(s: string)

  datatype Order = Asc | Desc

  /** `QuizParams`: every field may be missing. */
  datatype QuizParams = QuizParams(
    search: Option<string>,
    categories: Option<seq<CategoryId>>,
    limit: Option<int>,
    offset: Option<int>,
    sort: Option<string>,
    order: Option<Order>)

  /** A value placed in the query dictionary. */
  datatype QueryValue = Text(s: string) | Number(n: int) | Ids(ids: seq<CategoryId>)

  const QueryKeys: set<string> := {"search", "categories", "limit", "offset", "sort", "order"}

  function OrderName(o: Order): string {
    match o
    case Asc => "asc"
    case Desc => "desc"
  }

  /** A present, truthy string (`if (s)`). */
  predicate PresentText(s: Option<string>) {
    s.Some? && s.value != ""
  }

  /** A present, truthy number (`if (n)`). */
  predicate PresentNumber(n: Option<int>) {
    n.Some? && n.value != 0
  }

  /** What `buildQueryParams(params)` yields, key by key: search, sort and
      order when truthy, categories when non-empty, limit when non-zero,
      offset whenever defined (0 included), and no other key. */
  ghost predicate Describes(params: QuizParams, query: map<string, QueryValue>) {
    && query.Keys <= QueryKeys
    && ("search" in query <==> PresentText(params.search))
    && (PresentText(params.search) ==> query["search"] == Text(params.search.value))
    && ("categories" in query <==> params.categories.Some? && |params.categories.value| > 0)
    && ("categories" in query ==> query["categories"] == Ids(params.categories.value))
    && ("limit" in query <==> PresentNumber(params.limit))
    && (PresentNumber(params.limit) ==> query["limit"] == Number(params.limit.value))
    && ("offset" in query <==> params.offset.Some?)
    && (params.offset.Some? ==> query["offset"] == Number(params.offset.value))
    && ("sort" in query <==> PresentText(params.sort))
    && (PresentText(params.sort) ==> query["sort"] == Text(params.sort.value))
    && ("order" in query <==> params.order.Some?)
    && (params.order.Some? ==> query["order"] == Text(OrderName(params.order.value)))
  }

  /** `buildQueryParams`: fills the dictionary one condition at a time. */
  method BuildQueryParams(params: QuizParams) returns (query: map<string, QueryValue>)
    ensures Describes(params, query)
  {
    query := map[];
    if PresentText(params.search) {
      query := query["search" := Text(params.search.value)];
    }
    if params.categories.Some? && |params.categories.value| > 0 {
      query := query["categories" := Ids(params.categories.value)];
    }
    if PresentNumber(params.limit) {
      query := query["limit" := Number(params.limit.value)];
    }
    if params.offset.Some? {
      query := query["offset" := Number(params.offset.value)];
    }
    if PresentText(params.sort) {
      query := query["sort" := Text(params.sort.value)];
    }
    if params.order.Some? {
      query := query["order" := Text(OrderName(params.order.value))];
    }
  }

  /** The description leaves no freedom: one dictionary fits it. */
  lemma DescribesUnique(params: QuizParams, q1: map<string, QueryValue>, q2: map<string, QueryValue>)
    requires Describes(params, q1) && Describes(params, q2)
    ensures q1 == q2
  {
    assert q1.Keys == q2.Keys;
    forall k | k in q1.Keys
      ensures q1[k] == q2[k]
    {
      assert k in QueryKeys;
    }
  }

  /** A zero limit is dropped but a zero offset is sent. */
  lemma ZeroLimitDroppedZeroOffsetSent(query: map<string, QueryValue>)
    requires Describes(QuizParams(None, None, Some(0), Some(0), None, None), query)
    ensures query == map["offset" := Number(0)]
  {
    DescribesUnique(QuizParams(None, None, Some(0), Some(0), None, None), query, map["offset" := Number(0)]);
  }

  /** What the server answered: each field may be missing. */
  datatype ServerPage<T> = ServerPage(
    quizzes: Option<seq<T>>,
    total: Option<int>,
    limit: Option<int>,
    offset: Option<int>)

  /** The request failed (the `catch` branch), or it answered with a body
      that is present or missing (`response.data` falsy). */
  datatype Response<T> = RequestFailed | Received(body: Option<ServerPage<T>>)

  /** `PaginationResult<T>` */
  datatype PaginationResult<T> = PaginationResult(
    data: seq<T>,
    total: int,
    limit: int,
    offset: int,
    hasMore: bool)

  /** `n || d` on a number that may be missing: a missing or zero `n` falls
      through to `d`. */
  function OrNumber(n: Option<int>, d: int): (r: int)
    ensures PresentNumber(n) ==> r == n.value
    ensures !PresentNumber(n) ==> r == d
  {
    if PresentNumber(n) then n.value else d
  }

  /** `params?.limit || 10`: never zero; the caller's limit when it is a
      non-zero number, 10 otherwise. */
  function ParamLimit(params: Option<QuizParams>): (limit: int)
    ensures limit != 0
    ensures params.Some? && PresentNumber(params.value.limit) ==> limit == params.value.limit.value
    ensures limit != 10 ==> params.Some? && params.value.limit == Some(limit)
  {
    OrNumber(if params.Some? then params.value.limit else None, 10)
  }

  /** `params?.offset || 0`: because the default is itself 0, a given offset,
      0 included, comes through unchanged, and a missing one reads as 0. */
  function ParamOffset(params: Option<QuizParams>): (offset: int)
    ensures params.Some? && params.value.offset.Some? ==> offset == params.value.offset.value
    ensures params.None? || params.value.offset.None? ==> offset == 0
  {
    OrNumber(if params.Some? then params.value.offset else None, 0)
  }

  /** `result.total > (result.offset + result.limit)` on the raw fields: any
      missing one makes the sum NaN and the comparison false. */
  function HasMore<T>(page: ServerPage<T>): (more: bool)
    ensures page.total.None? || page.offset.None? || page.limit.None? ==> !more
    ensures page.total.Some? && page.offset.Some? && page.limit.Some? ==>
              (more <==> page.total.value - page.offset.value > page.limit.value)
  {
    page.total.Some? && page.offset.Some? && page.limit.Some?
    && page.total.value > page.offset.value + page.limit.value
  }

  /** The result `fetchQuizAll` returns for an outcome of its request. The
      limit is never zero. A failure answers an empty page with the limit and
      offset of the parameters. Otherwise limit and offset fall back from the
      server to the parameters to 10 and 0, while `hasMore` is decided on the
      server's raw fields alone. */
  function FetchResult<T>(params: Option<QuizParams>, response: Response<T>): (r: PaginationResult<T>)
    ensures r.limit != 0
    ensures response.RequestFailed? ==>
              r == PaginationResult([], 0, ParamLimit(params), ParamOffset(params), false)
    ensures response.Received? && response.body.Some? ==>
              var page := response.body.value;
              && r.data == page.quizzes.GetOr([])
              && r.total == OrNumber(page.total, 0)
              && r.limit == OrNumber(page.limit, ParamLimit(params))
              && r.offset == OrNumber(page.offset, ParamOffset(params))
              && (r.hasMore <==> page.total.Some? && page.offset.Some? && page.limit.Some?
                                 && page.total.value > page.offset.value + page.limit.value)
    ensures response == Received(None) ==>
              && r.data == [] && r.total == 0
              && r.limit == ParamLimit(params) && r.offset == ParamOffset(params)
              && (r.hasMore <==> r.offset + r.limit < 0)
  {
    match response
    case RequestFailed =>
      PaginationResult([], 0, ParamLimit(params), ParamOffset(params), false)
    case Received(body) =>
      var result := if body.Some? then body.value
                    else ServerPage(Some([]), Some(0), Some(ParamLimit(params)), Some(ParamOffset(params)));
      PaginationResult(
        result.quizzes.GetOr([]),
        OrNumber(result.total, 0),
        OrNumber(result.limit, ParamLimit(params)),
        OrNumber(result.offset, ParamOffset(params)),
        HasMore(result))
  }

  /** The defaults do not reach `hasMore`: thirty items and no limit from the
      server show a limit of 10 and an offset of 0, yet no further page. */
  lemma HasMoreIgnoresDefaults()
    ensures var r := FetchResult<int>(None, Received(Some(ServerPage(None, Some(30), None, None))));
            r.total == 30 && r.limit == 10 && r.offset == 0 && r.total > r.offset + r.limit && !r.hasMore
  {
  }

  /** A missing body with non-negative parameters never claims more pages. */
  lemma MissingBodyHasNoMore<T>(params: Option<QuizParams>)
    requires params.Some? && params.value.limit.Some? ==> params.value.limit.value >= 0
    requires params.Some? && params.value.offset.Some? ==> params.value.offset.value >= 0
    ensures !FetchResult<T>(params, Received(None)).hasMore
  {
  }

  /** `fetchQuizAll(params)`: the query sent is empty without parameters and
      built from them otherwise; the result is the normalised answer. */
  method FetchQuizAll<T>(params: Option<QuizParams>, response: Response<T>)
    returns (query: map<string, QueryValue>, result: PaginationResult<T>)
    ensures params.None? ==> query == map[]
    ensures params.Some? ==> Describes(params.value, query)
    ensures result == FetchResult(params, response)
  {
    if params.Some? {
      query := BuildQueryParams(params.value);
    } else {
      query := map[];
    }
    result := FetchResult(params, response);
  }
}
