/** The shared policy context: one cached feed, its pagination cursor and the
    fetch gate, and the handlers that replace, append or patch cached records.
    Every handler is one atomic transition; the page fetch is also given as an
    admission step and a completion step so that the gate can be studied. */
module PolicyContext {
  import opened PolicyTypes
  import opened PolicyLists
  import Api

  /** The context's state: the cached feed, the pagination cursor and the gate. */
  datatype ContextState = ContextState(
    policies: seq<Policy>,
    hasMore: bool,
    currentPage: int,
    totalPolicies: int,
    isFetching: bool)

  /** The state the provider mounts with: empty feed, more pages, page 1, idle. */
  const Mounted := ContextState([], true, 1, 0, false)

  /** Limit used when a caller passes none. */
  const DefaultLimit := 10

  /** Filters used when a caller passes none. */
  const DefaultFilters := Filters([], [], "date")

  /** The arguments a caller of the page fetch may pass; each may be omitted. */
  datatype FetchArgs = FetchArgs(page: Option<int>, limit: Option<int>, filters: Option<Filters>)

  /** The request the admitted fetch sends to the list endpoint. */
  datatype PageRequest = PageRequest(page: int, limit: int, filters: Filters)

  /** The request with every omitted argument replaced by its default; an
      omitted page means the cursor's current page. */
  function ResolveArgs(st: ContextState, args: FetchArgs): (req: PageRequest)
    ensures args.page.None? ==> req.page == st.currentPage
    ensures args.page.Some? ==> req.page == args.page.value
    ensures req.limit == (if args.limit.Some? then args.limit.value else 10)
    ensures args.filters.None? ==> req.filters == Filters([], [], "date")
    ensures args.filters.Some? ==> req.filters == args.filters.value
  {
    PageRequest(
      if args.page.Some? then args.page.value else st.currentPage,
      if args.limit.Some? then args.limit.value else DefaultLimit,
      if args.filters.Some? then args.filters.value else DefaultFilters)
  }

  /** Admission through the gate: a fetch already in flight or an exhausted
      feed drops the call with no change; otherwise the gate closes and the
      request is issued. */
  function BeginFetch(st: ContextState, args: FetchArgs): (r: (ContextState, Option<PageRequest>))
    ensures st.isFetching || !st.hasMore ==> r == (st, None)
    ensures !st.isFetching && st.hasMore ==>
              r.0 == st.(isFetching := true) && r.1 == Some(ResolveArgs(st, args))
  {
    if st.isFetching || !st.hasMore then (st, None)
    else (st.(isFetching := true), Some(ResolveArgs(st, args)))
  }

  /** Completion of an admitted fetch of `req`: a page merges into the feed and
      moves the cursor; a thrown call leaves feed and cursor as they were.
      Either way the gate reopens. */
  function CompleteFetch(st: ContextState, req: PageRequest, reply: Reply<PageResponse>): (r: ContextState)
    ensures !r.isFetching
    ensures reply.Threw? ==>
              r.policies == st.policies && r.hasMore == st.hasMore
              && r.currentPage == st.currentPage && r.totalPolicies == st.totalPolicies
    ensures reply.Ok? ==>
              && r.policies == Merge(st.policies, reply.value.policies)
              && r.hasMore == reply.value.hasMore
              && r.totalPolicies == reply.value.totalPolicies
              && r.currentPage == req.page + 1
  {
    match reply
    case Threw => st.(isFetching := false)
    case Ok(data) =>
      ContextState(Merge(st.policies, data.policies), data.hasMore, req.page + 1, data.totalPolicies, false)
  }

  /** The page fetch as one transition: admission, then completion with `reply`. */
  function FetchPolicies(st: ContextState, args: FetchArgs, reply: Reply<PageResponse>): (r: ContextState)
    ensures st.isFetching || !st.hasMore ==> r == st
    ensures !st.isFetching ==> !r.isFetching
    ensures reply.Threw? ==> r == st
  {
    var (admitted, req) := BeginFetch(st, args);
    if req.None? then admitted else CompleteFetch(admitted, req.value, reply)
  }

  /** An admitted fetch that gets a page: the feed is the merge, the cursor
      takes the reply's `hasMore` and total, and the current page becomes the
      requested page plus one (not the old current page plus one). */
  lemma FetchSucceeds(st: ContextState, args: FetchArgs, data: PageResponse)
    requires !st.isFetching && st.hasMore
    ensures var r := FetchPolicies(st, args, Ok(data));
            && r.policies == Merge(st.policies, data.policies)
            && r.hasMore == data.hasMore
            && r.totalPolicies == data.totalPolicies
            && r.currentPage == (if args.page.Some? then args.page.value else st.currentPage) + 1
            && !r.isFetching
  {
  }

  /** The single-record fetch: the record, or nothing when the call throws. */
  function FetchPolicy(reply: Reply<Policy>): (r: Option<Policy>)
    ensures r.Some? <==> reply.Ok?
    ensures r.Some? ==> r.value == reply.value
  {
    match reply
    case Ok(p) => Some(p)
    case Threw => None
  }

  /** Loading the current user's policies: a successful envelope replaces the
      whole feed and is returned; a refused envelope or a thrown call changes
      nothing and returns nothing. */
  function FetchUserPolicies(st: ContextState, reply: Reply<UserPoliciesResponse>)
    : (r: (ContextState, Option<seq<Policy>>))
    ensures reply.Ok? && reply.value.success ==>
              r.0 == st.(policies := reply.value.data) && r.1 == Some(reply.value.data)
    ensures !(reply.Ok? && reply.value.success) ==> r == (st, None)
  {
    if reply.Ok? && reply.value.success then (st.(policies := reply.value.data), Some(reply.value.data))
    else (st, None)
  }

  /** The context upvote: the server copy replaces the record carrying its id;
      a thrown call is swallowed and changes nothing. */
  function UpvotePolicy(st: ContextState, reply: Reply<Policy>): (r: ContextState)
    ensures |r.policies| == |st.policies|
    ensures r == st.(policies := r.policies)
    ensures reply.Threw? ==> r == st
    ensures reply.Ok? ==>
              forall i :: 0 <= i < |st.policies| ==>
                r.policies[i] == (if st.policies[i].id == reply.value.id then reply.value else st.policies[i])
  {
    match reply
    case Threw => st
    case Ok(updated) => st.(policies := ReplaceById(st.policies, updated))
  }

  /** Creating a policy: the returned record is appended after every cached
      record, which stay as they were; a thrown call changes nothing. */
  function AddPolicy(st: ContextState, reply: Reply<Policy>): (r: (ContextState, Option<Policy>))
    ensures reply.Ok? ==>
              && |r.0.policies| == |st.policies| + 1
              && r.0.policies[..|st.policies|] == st.policies
              && r.0.policies[|st.policies|] == reply.value
              && r.1 == Some(reply.value)
    ensures reply.Threw? ==> r == (st, None)
    ensures r.0 == st.(policies := r.0.policies)
  {
    match reply
    case Threw => (st, None)
    case Ok(created) => (st.(policies := st.policies + [created]), Some(created))
  }

  // ---------------------------------------------------------------------------
  // Sequences of transitions

  /** One of the context's handlers, with the reply its remote call produces. */
  datatype Event =
    | Fetch(args: FetchArgs, page: Reply<PageResponse>)
    | LoadUserPolicies(envelope: Reply<UserPoliciesResponse>)
    | Upvote(server: Reply<Policy>)
    | Add(created: Reply<Policy>)

  function Step(st: ContextState, e: Event): ContextState {
    match e
    case Fetch(args, page) => FetchPolicies(st, args, page)
    case LoadUserPolicies(envelope) => FetchUserPolicies(st, envelope).0
    case Upvote(server) => UpvotePolicy(st, server)
    case Add(created) => AddPolicy(st, created).0
  }

  function Run(st: ContextState, events: seq<Event>): ContextState
    decreases |events|
  {
    if |events| == 0 then st else Run(Step(st, events[0]), events[1..])
  }

  /** Once the feed is exhausted it stays exhausted: no handler sets `hasMore`
      back, and the gate stops every later fetch. */
  lemma {:induction false} ExhaustedStaysExhausted(st: ContextState, events: seq<Event>)
    requires !st.hasMore
    ensures !Run(st, events).hasMore
    ensures Run(st, events).currentPage == st.currentPage
    ensures Run(st, events).totalPolicies == st.totalPolicies
    decreases |events|
  {
    if |events| > 0 {
      ExhaustedStaysExhausted(Step(st, events[0]), events[1..]);
    }
  }

  /** From an idle context no sequence of handlers leaves the gate closed. */
  lemma {:induction false} GateReopens(st: ContextState, events: seq<Event>)
    requires !st.isFetching
    ensures !Run(st, events).isFetching
    decreases |events|
  {
    if |events| > 0 {
      GateReopens(Step(st, events[0]), events[1..]);
    }
  }

  /** Admitting several fetch calls in a row, with none completing: the first
      is admitted when the gate is open and the feed not exhausted, every
      later one is dropped. Returns the state and the requests issued. */
  function BeginMany(st: ContextState, calls: seq<FetchArgs>): (r: (ContextState, seq<PageRequest>))
    decreases |calls|
  {
    if |calls| == 0 then (st, [])
    else
      var (next, req) := BeginFetch(st, calls[0]);
      var (last, rest) := BeginMany(next, calls[1..]);
      (last, (if req.Some? then [req.value] else []) + rest)
  }

  /** Single flight: any burst of fetch calls issues at most one request, and
      exactly one when the gate was open, the feed not exhausted and the burst
      not empty; that request is the first call's. */
  lemma {:induction false} SingleFlight(st: ContextState, calls: seq<FetchArgs>)
    ensures st.isFetching || !st.hasMore ==> BeginMany(st, calls).1 == []
    ensures !st.isFetching && st.hasMore && |calls| > 0 ==>
              BeginMany(st, calls).1 == [ResolveArgs(st, calls[0])]
    decreases |calls|
  {
    if |calls| > 0 {
      var (next, req) := BeginFetch(st, calls[0]);
      SingleFlight(next, calls[1..]);
    }
  }

  /** A fetch with every argument omitted asks for the cursor's current page,
      ten records and the "date" sort, with no category or year filter. */
  lemma DefaultFetchQuery(st: ContextState)
    requires !st.isFetching && st.hasMore
    ensures var req := BeginFetch(st, FetchArgs(None, None, None)).1;
            && req.Some?
            && var q := Api.QueryParams(req.value.page, req.value.limit, req.value.filters);
            && |q| == 3
            && |Api.GetAll(q, "page")| == 1 && Api.ParseDecimal(Api.GetAll(q, "page")[0]) == Some(st.currentPage)
            && |Api.GetAll(q, "limit")| == 1 && Api.ParseDecimal(Api.GetAll(q, "limit")[0]) == Some(10)
            && Api.GetAll(q, "sortBy") == ["date"]
            && Api.GetAll(q, "categories") == [] && Api.GetAll(q, "year") == []
  {
    Api.QueryParamsRoundTrip(st.currentPage, 10, DefaultFilters);
  }

  /** Loading the user's policies swaps the feed but keeps the cursor, so the
      next admitted page fetch without a page argument merges into the user's
      list at the old current page: both share one feed and one cursor. */
  lemma UserPoliciesKeepCursor(st: ContextState, mine: seq<Policy>, args: FetchArgs, data: PageResponse)
    requires !st.isFetching && st.hasMore && args.page.None?
    ensures var u := FetchUserPolicies(st, Ok(UserPoliciesResponse(true, mine))).0;
            && u.currentPage == st.currentPage && u.hasMore == st.hasMore
            && u.totalPolicies == st.totalPolicies && u.isFetching == st.isFetching
            && var r := FetchPolicies(u, args, Ok(data));
            && r.policies == Merge(mine, data.policies)
            && r.currentPage == st.currentPage + 1
  {
    var u := FetchUserPolicies(st, Ok(UserPoliciesResponse(true, mine))).0;
    FetchSucceeds(u, args, data);
  }

  /** Infinite scroll from mount: pages of 10, 10 and 5 fresh records, the last
      reporting no more, give a feed of all 25 in order with the cursor on
      page 4; after that every further fetch is dropped. */
  lemma ThreePagesThenExhausted(p1: seq<Policy>, p2: seq<Policy>, p3: seq<Policy>, args: FetchArgs, reply: Reply<PageResponse>)
    requires |p1| == 10 && |p2| == 10 && |p3| == 5
    requires forall p :: p in p1 ==> p.id !in IdSet(p2)
    requires forall p :: p in p1 + p2 ==> p.id !in IdSet(p3)
    ensures var none := FetchArgs(None, None, None);
            var s1 := FetchPolicies(Mounted, none, Ok(PageResponse(p1, true, 25)));
            var s2 := FetchPolicies(s1, none, Ok(PageResponse(p2, true, 25)));
            var s3 := FetchPolicies(s2, none, Ok(PageResponse(p3, false, 25)));
            && s1.policies == p1 && s1.currentPage == 2
            && s2.policies == p1 + p2 && s2.currentPage == 3
            && s3.policies == p1 + p2 + p3 && |s3.policies| == 25
            && s3.currentPage == 4 && !s3.hasMore && !s3.isFetching
            && FetchPolicies(s3, args, reply) == s3
  {
    MergeFreshPage([], p1);
    MergeFreshPage(p1, p2);
    MergeFreshPage(p1 + p2, p3);
  }
}
