/** `orderOrFallback` (lib/db/safeOrder.ts): run a query sorted by the first
    candidate column the schema has, treating "column ... does not exist"
    as "try the next one", any other error as fatal, and finally running the
    query unsorted. The store is an oracle from the request sent to the
    reply; `calls` records every request awaited, in order.

    The source calls `order` on the one builder it is given, and the
    builder keeps every sort key added to it (see `Store.Query`), so
    `OrderOrFallback` below sends the candidates accumulated, not one at a
    time. `OrderOrFallbackFixed` is the evidently intended behaviour: each
    candidate on its own, then the base query unsorted. */
module SafeOrder {
  import opened Wrappers
  import opened Store

  /** The sort keys `.order(col, { ascending })` adds for the candidates. */
  function SortKeys(candidates: seq<string>, ascending: bool): (keys: seq<SortKey>)
    ensures |keys| == |candidates|
    ensures forall k :: 0 <= k < |candidates| ==> keys[k] == SortKey(candidates[k], ascending)
  {
    seq(|candidates|, k requires 0 <= k < |candidates| => SortKey(candidates[k], ascending))
  }

  /** `!!opts.ascending`, with `opts` defaulting to `{ ascending: false }`. */
  function Ascending(ascending: Option<bool>): bool {
    ascending == Some(true)
  }

  /** The loop as written, on the shared builder `q`. */
  method OrderOrFallback<T>(q: Query, store: Request -> Reply<T>, candidates: seq<string>, ascending: Option<bool>)
    returns (data: seq<T>, error: Option<StoreError>, ghost calls: seq<Request>)
    modifies q
    ensures 1 <= |calls| <= |candidates| + 1
    // the k-th attempt carries the sort keys of every candidate up to the k-th
    ensures forall k :: 0 <= k < |calls| && k < |candidates| ==>
      calls[k] == AddOrders(old(q.request), SortKeys(candidates[..k + 1], Ascending(ascending)))
    // every request but the last failed for a missing column
    ensures forall k :: 0 <= k < |calls| - 1 ==> SkipsColumn(store(calls[k]))
    // the plain await comes after every candidate was tried, and sends what
    // the builder holds by then: all of them
    ensures |calls| == |candidates| + 1 ==>
      calls[|candidates|] == AddOrders(old(q.request), SortKeys(candidates, Ascending(ascending)))
    // the builder keeps the sort keys added to it
    ensures q.request == calls[|calls| - 1]
    // the last request decides the result
    ensures var last := store(calls[|calls| - 1]);
      if |calls| == |candidates| + 1 then
        data == last.data.GetOr([]) && error == last.error
      else if last.error.None? then
        data == last.data.GetOr([]) && error.None?
      else
        !SkipsColumn(last) && data == [] && error == last.error
    // so, with a candidate at all, the plain await repeats the last failed
    // request and cannot rescue the query
    ensures |candidates| > 0 && |calls| == |candidates| + 1 ==>
      error.Some? && MissingColumn(error.value.message)
  {
    var asc := Ascending(ascending);
    ghost var base := q.request;
    calls := [];
    var i := 0;
    while i < |candidates|
      invariant 0 <= i <= |candidates| && |calls| == i
      invariant q.request == AddOrders(base, SortKeys(candidates[..i], asc))
      invariant forall k :: 0 <= k < i ==> calls[k] == AddOrders(base, SortKeys(candidates[..k + 1], asc))
      invariant forall k :: 0 <= k < i ==> SkipsColumn(store(calls[k]))
    {
      q.Order(candidates[i], asc);
      assert SortKeys(candidates[..i + 1], asc) == SortKeys(candidates[..i], asc) + [SortKey(candidates[i], asc)];
      var reply := store(q.request);
      calls := calls + [q.request];
      if reply.error.None? {
        return reply.data.GetOr([]), None, calls;
      }
      if !MissingColumn(reply.error.value.message) {
        return [], reply.error, calls;
      }
      i := i + 1;
    }
    assert candidates[..i] == candidates;
    if i > 0 {
      assert calls[i - 1] == q.request;
    }
    var reply := store(q.request);
    calls := calls + [q.request];
    data, error := reply.data.GetOr([]), reply.error;
  }

  /** The evidently intended loop: each candidate sorts its own copy of the
      base query, and the fallback is the base query unsorted. */
  method OrderOrFallbackFixed<T>(q: Query, store: Request -> Reply<T>, candidates: seq<string>, ascending: Option<bool>)
    returns (data: seq<T>, error: Option<StoreError>, ghost calls: seq<Request>)
    // candidates are tried strictly in list order, each alone
    ensures 1 <= |calls| <= |candidates| + 1
    ensures forall k :: 0 <= k < |calls| && k < |candidates| ==>
      calls[k] == AddOrders(q.request, [SortKey(candidates[k], Ascending(ascending))])
    // every request but the last failed for a missing column
    ensures forall k :: 0 <= k < |calls| - 1 ==> SkipsColumn(store(calls[k]))
    // the base query runs, unchanged, exactly when every candidate was missing
    ensures |calls| == |candidates| + 1 ==> calls[|candidates|] == q.request
    // the last request decides the result
    ensures var last := store(calls[|calls| - 1]);
      if |calls| == |candidates| + 1 then
        data == last.data.GetOr([]) && error == last.error
      else if last.error.None? then
        data == last.data.GetOr([]) && error.None?
      else
        !SkipsColumn(last) && data == [] && error == last.error
  {
    var asc := Ascending(ascending);
    calls := [];
    var i := 0;
    while i < |candidates|
      invariant 0 <= i <= |candidates| && |calls| == i
      invariant forall k :: 0 <= k < i ==> calls[k] == AddOrders(q.request, [SortKey(candidates[k], asc)])
      invariant forall k :: 0 <= k < i ==> SkipsColumn(store(calls[k]))
    {
      var request := AddOrders(q.request, [SortKey(candidates[i], asc)]);
      var reply := store(request);
      calls := calls + [request];
      if reply.error.None? {
        return reply.data.GetOr([]), None, calls;
      }
      if !MissingColumn(reply.error.value.message) {
        return [], reply.error, calls;
      }
      i := i + 1;
    }
    var reply := store(q.request);
    calls := calls + [q.request];
    data, error := reply.data.GetOr([]), reply.error;
  }

  /** A table with column `c` but not `a` or `b`: the store sorts by `c`
      when asked for `c` alone and reports the first sort key it lacks
      otherwise. */
  function OnlyC(r: Request): Reply<int> {
    if r.orders == [SortKey("c", false)] then Reply(Some([3, 2, 1]), None)
    else if r.orders != [] then Reply(None, Some(StoreError("column " + r.orders[0].column + " does not exist")))
    else Reply(Some([1, 2, 3]), None)
  }

  /** Candidates `a`, `b`, `c` where only `c` exists: tried one at a time,
      the rows come back sorted by `c`, with no unsorted query. */
  method FallsThroughToExistingColumn() returns (data: seq<int>)
    ensures data == [3, 2, 1]
  {
    var q := new Query("t");
    PostgresMessageMatches("a");
    PostgresMessageMatches("b");
    var error;
    ghost var calls;
    data, error, calls := OrderOrFallbackFixed(q, OnlyC, ["a", "b", "c"], None);
    assert calls[0].orders == [SortKey("a", false)];
    if |calls| > 1 {
      assert calls[1].orders == [SortKey("b", false)];
    }
    if |calls| > 2 {
      assert calls[2].orders == [SortKey("c", false)];
    }
  }

  /** The same table and candidates on the shared builder as written: every
      attempt, and the final plain await, still asks for `a` first, so the
      missing-column error comes back instead of the rows. */
  method SharedBuilderKeepsMissingColumn() returns (data: seq<int>, error: Option<StoreError>)
    ensures data == [] && error == Some(StoreError("column " + "a" + " does not exist"))
  {
    var q := new Query("t");
    var cs := ["a", "b", "c"];
    PostgresMessageMatches("a");
    ghost var calls;
    data, error, calls := OrderOrFallback(q, OnlyC, cs, None);
    ghost var n := |calls| - 1;
    ghost var keys := SortKeys(if n < |cs| then cs[..n + 1] else cs, false);
    assert calls[n].orders == [] + keys;
    assert keys[0] == SortKey("a", false) && keys != [SortKey("c", false)];
  }

  /** No candidate exists: the unsorted rows come back instead of an error. */
  method FallsBackToUnsorted() returns (data: seq<int>, error: Option<StoreError>)
    ensures data == [1, 2, 3] && error.None?
  {
    var q := new Query("t");
    var store := (r: Request) =>
      if r.orders != [] then Reply(None, Some(StoreError("column " + r.orders[0].column + " does not exist")))
      else Reply(Some([1, 2, 3]), None);
    PostgresMessageMatches("created_at");
    ghost var calls;
    data, error, calls := OrderOrFallbackFixed(q, store, ["created_at"], Some(false));
    assert calls[0].orders == [SortKey("created_at", false)];
  }
}
