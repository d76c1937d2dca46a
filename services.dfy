/** The two list services with logic of their own: the consensus-bets
    service (lib/services/consensusBets.ts), which clamps its page size and
    settles one query, and the watchlist service (lib/services/userWatchlist.ts),
    which reads the user from either of two parameter names and, when
    `created_at` is missing, awaits its query a second time, meaning to
    retry without ordering. The store is an oracle
    from the request sent to the reply; the query builder is `Store.Query`. */
module Services {
  import opened Wrappers
  import opened Js
  import opened Store
  import opened UrlParams
  import opened Limits

  // ---------------------------------------------------------------------------
  // lib/services/consensusBets.ts

  /** `listConsensusBets({ limit })`: one query for `consensus_bets` with the
      clamped page size, settled. */
  function ListConsensusBets<T>(limit: Option<JsNum>, store: JsNum -> Reply<T>): (r: Result<seq<T>>)
    ensures r == Settle(store(ConsensusLimit(limit)))
    ensures r.Success? ==> r.value == store(ConsensusLimit(limit)).data.GetOr([])
  {
    Settle(store(ConsensusLimit(limit)))
  }

  // ---------------------------------------------------------------------------
  // lib/services/userWatchlist.ts

  /** `sp.get("userId") ?? sp.get("user_id")`, then filtered only when
      truthy: a present but empty `userId` hides `user_id` and filters
      nothing. */
  function UserFilter(sp: seq<Entry>): (u: Option<string>)
    ensures Lookup(sp, "userId").Some? && Lookup(sp, "userId") != Some("") ==> u == Lookup(sp, "userId")
    ensures Lookup(sp, "userId") == Some("") ==> u.None?
    ensures Lookup(sp, "userId").None? && Lookup(sp, "user_id") != Some("") ==> u == Lookup(sp, "user_id")
    ensures Lookup(sp, "userId").None? && Lookup(sp, "user_id") == Some("") ==> u.None?
    ensures u.Some? ==> u.value != ""
  {
    var id := match Lookup(sp, "userId") case Some(v) => Some(v) case None => Lookup(sp, "user_id");
    if id.Some? && id.value != "" then id else None
  }

  /** The request the base query of `listUserWatchlist` stands for:
      `user_watchlist`, the page size, and the `user_id` filter when there
      is a user; no sort key yet. */
  function WatchRequest(sp: seq<Entry>): Request {
    var filters := match UserFilter(sp) case Some(u) => [("user_id", u)] case None => [];
    Request("user_watchlist", Some(ParamsLimit(Lookup(sp, "limit"), 50, 200)), filters, [])
  }

  /** `listUserWatchlist(sp)` as written: order the base builder by
      `created_at` descending and await it; on a missing-column error await
      the same builder once more; settle whichever reply came last.
      `queries` records the requests awaited. The retry is meant to run
      unordered, but the builder still carries the sort key, so it sends the
      same request and a missing `created_at` always ends in the error. */
  method ListUserWatchlist<T>(sp: seq<Entry>, store: Request -> Reply<T>)
    returns (r: Result<seq<T>>, ghost queries: seq<Request>)
    ensures 1 <= |queries| <= 2
    ensures queries[0] == AddOrders(WatchRequest(sp), [SortKey("created_at", false)])
    ensures |queries| == 2 <==> SkipsColumn(store(queries[0]))
    ensures |queries| == 2 ==> queries[1] == queries[0]
    ensures r == Settle(store(queries[|queries| - 1]))
    ensures SkipsColumn(store(queries[0])) ==> r.Failure? && MissingColumn(r.message)
  {
    var base := new Query("user_watchlist");
    base.Limit(ParamsLimit(Lookup(sp, "limit"), 50, 200));
    var userId := UserFilter(sp);
    if userId.Some? {
      base.Eq("user_id", userId.value);
    }
    base.Order("created_at", false);
    queries := [base.request];
    var first := store(base.request);
    var data, error := first.data, first.error;
    if error.Some? && MissingColumn(error.value.message) {
      queries := queries + [base.request];
      var retry := store(base.request);
      data, error := retry.data, retry.error;
    }
    if error.Some? {
      return Failure(error.value.message), queries;
    }
    r := Success(data.GetOr([]));
  }

  /** The evidently intended `listUserWatchlist`: the retry awaits the base
      query without the sort key. */
  method ListUserWatchlistFixed<T>(sp: seq<Entry>, store: Request -> Reply<T>)
    returns (r: Result<seq<T>>, ghost queries: seq<Request>)
    ensures 1 <= |queries| <= 2
    ensures queries[0] == AddOrders(WatchRequest(sp), [SortKey("created_at", false)])
    ensures |queries| == 2 <==> SkipsColumn(store(queries[0]))
    ensures |queries| == 2 ==> queries[1] == WatchRequest(sp)
    ensures r == Settle(store(queries[|queries| - 1]))
  {
    var base := new Query("user_watchlist");
    base.Limit(ParamsLimit(Lookup(sp, "limit"), 50, 200));
    var userId := UserFilter(sp);
    if userId.Some? {
      base.Eq("user_id", userId.value);
    }
    var unordered := base.request;
    base.Order("created_at", false);
    queries := [base.request];
    var first := store(base.request);
    var data, error := first.data, first.error;
    if error.Some? && MissingColumn(error.value.message) {
      queries := queries + [unordered];
      var retry := store(unordered);
      data, error := retry.data, retry.error;
    }
    if error.Some? {
      return Failure(error.value.message), queries;
    }
    r := Success(data.GetOr([]));
  }

  /** A `user_watchlist` without `created_at`: the store fails any request
      sorted by it and returns the rows otherwise. */
  function NoCreatedAt(q: Request): Reply<int> {
    if q.orders != [] then Reply(None, Some(StoreError("column " + "created_at" + " does not exist")))
    else Reply(Some([7]), None)
  }

  /** On that store the fixed service returns the rows of the unordered
      retry. */
  method WatchlistWithoutCreatedAt() returns (r: Result<seq<int>>)
    ensures r == Success([7])
  {
    PostgresMessageMatches("created_at");
    ghost var queries;
    r, queries := ListUserWatchlistFixed([("user_id", "u1")], NoCreatedAt);
    assert queries[0].orders == [SortKey("created_at", false)];
    assert SkipsColumn(NoCreatedAt(queries[0]));
    assert queries[1].orders == [];
  }

  /** On the same store the service as written throws the missing-column
      error. */
  method WatchlistRetryKeepsOrder() returns (r: Result<seq<int>>)
    ensures r == Failure("column " + "created_at" + " does not exist")
  {
    PostgresMessageMatches("created_at");
    ghost var queries;
    r, queries := ListUserWatchlist([("user_id", "u1")], NoCreatedAt);
    assert queries[0].orders == [SortKey("created_at", false)];
    assert SkipsColumn(NoCreatedAt(queries[0]));
  }

  /** `?userId=&user_id=u1`: the empty `userId` wins the `??` and then
      filters nothing, so `user_id` is ignored. */
  lemma EmptyUserIdHidesAlias()
    ensures UserFilter([("userId", ""), ("user_id", "u1")]) == None
    ensures UserFilter([("user_id", "u1")]) == Some("u1")
    ensures UserFilter([("user_id", "u1"), ("userId", "u2")]) == Some("u2")
  {
  }
}
