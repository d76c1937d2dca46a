/** `GET /api/situations` (app/api/situations/route.ts): read the filters,
    ask the store either for per-player totals (the default) or for the
    situational view, and answer with the rows projected for the front
    end, aggregated in code when totals were asked for. */
module Situations {
  import opened Wrappers
  import opened Js
  import opened UrlParams
  import opened Http
  import opened Aggregation
  import Leaderboard

  // ---------------------------------------------------------------------------
  // The request

  /** `get("year") ?? "2024"`. */
  function Year(sp: seq<Entry>): string {
    Lookup(sp, "year").GetOr("2024")
  }

  /** `get("limit") ?? "100"`. */
  function Limit(sp: seq<Entry>): string {
    Lookup(sp, "limit").GetOr("100")
  }

  /** Totals are asked for unless `aggregate` is exactly `false`. */
  predicate Aggregate(sp: seq<Entry>) {
    Lookup(sp, "aggregate") != Some("false")
  }

  /** What `q()` keeps of a value: a non-empty string. */
  function Kept(x: Option<string>): (r: Option<string>)
    ensures r.Some? <==> x.Some? && x.value != ""
    ensures r.Some? ==> r == x
  {
    if x.Some? && x.value != "" then x else None
  }

  // ---------------------------------------------------------------------------
  // The two queries

  /** The record handed to `q()` for the aggregating store function. */
  function RpcRecord(sp: seq<Entry>): seq<(string, Option<string>)> {
    [("position_filter", Lookup(sp, "position")), ("team_filter", Lookup(sp, "team")),
     ("season_filter", Some(Year(sp))), ("defense_tier_filter", Lookup(sp, "defense_tier")),
     ("min_yards_filter", Lookup(sp, "min_yards")), ("max_yards_filter", Lookup(sp, "max_yards")),
     ("min_games_filter", Lookup(sp, "min_games")), ("limit_count", Some(Limit(sp)))]
  }

  const ViewSelect := "player_id,full_name,position,season,category,def_tier,team_abbr,total_yards,games,per_game"

  /** The record handed to `q()` for the situational view: the column list,
      an equality per truthy filter, passing stats only, the order and the
      limit. */
  function ViewRecord(sp: seq<Entry>): seq<(string, Option<string>)> {
    [("select", Some(ViewSelect)), ("position", Leaderboard.Filter("eq.", Lookup(sp, "position"))),
     ("team_abbr", Leaderboard.Filter("eq.", Lookup(sp, "team"))),
     ("def_tier", Leaderboard.Filter("eq.", Lookup(sp, "defense_tier"))),
     ("season", Leaderboard.Filter("eq.", Some(Year(sp)))), ("category", Some("eq.pass")),
     ("order", Some("total_yards.desc.nullslast")), ("limit", Some(Limit(sp)))]
  }

  function Record(sp: seq<Entry>): seq<(string, Option<string>)> {
    if Aggregate(sp) then RpcRecord(sp) else ViewRecord(sp)
  }

  function Endpoint(sp: seq<Entry>): string {
    if Aggregate(sp) then "/rest/v1/rpc/get_aggregated_player_stats" else "/rest/v1/v_situational_leaderboard"
  }

  /** The query string sent to the store. */
  function SituationsQuery(sp: seq<Entry>): string {
    Serialize(Present(Record(sp)))
  }

  /** The store reads back, under each name of the record, the value `q()`
      kept for it. */
  lemma QueryLookup(record: seq<(string, Option<string>)>, i: nat)
    requires DistinctKeys(record) && i < |record|
    ensures Lookup(Parse(Serialize(Present(record))), record[i].0) == Kept(record[i].1)
  {
    ParseSerialize(Present(record));
    LookupPresent(record, i);
  }

  lemma RecordsDistinct(sp: seq<Entry>)
    ensures DistinctKeys(RpcRecord(sp)) && DistinctKeys(ViewRecord(sp))
  {
  }

  /** The aggregating query passes each filter on under its `_filter`
      name when it is non-empty, the year (2024 by default) as the season
      and the limit (100 by default) as the count. */
  lemma RpcQueryParams(sp: seq<Entry>)
    requires Aggregate(sp)
    ensures var ps := Parse(SituationsQuery(sp));
      Lookup(ps, "position_filter") == Kept(Lookup(sp, "position"))
      && Lookup(ps, "team_filter") == Kept(Lookup(sp, "team"))
      && Lookup(ps, "season_filter") == Kept(Some(Year(sp)))
      && Lookup(ps, "defense_tier_filter") == Kept(Lookup(sp, "defense_tier"))
      && Lookup(ps, "min_yards_filter") == Kept(Lookup(sp, "min_yards"))
      && Lookup(ps, "max_yards_filter") == Kept(Lookup(sp, "max_yards"))
      && Lookup(ps, "min_games_filter") == Kept(Lookup(sp, "min_games"))
      && Lookup(ps, "limit_count") == Kept(Some(Limit(sp)))
  {
    var r := RpcRecord(sp);
    RecordsDistinct(sp);
    QueryLookup(r, 0);
    QueryLookup(r, 1);
    QueryLookup(r, 2);
    QueryLookup(r, 3);
    QueryLookup(r, 4);
    QueryLookup(r, 5);
    QueryLookup(r, 6);
    QueryLookup(r, 7);
  }

  /** The view query always selects the fixed columns, passing stats and
      the order by total yards; each truthy filter becomes an equality. */
  lemma ViewQueryParams(sp: seq<Entry>)
    requires !Aggregate(sp)
    ensures var ps := Parse(SituationsQuery(sp));
      Lookup(ps, "select") == Some(ViewSelect)
      && Lookup(ps, "position") == Leaderboard.Filter("eq.", Lookup(sp, "position"))
      && Lookup(ps, "team_abbr") == Leaderboard.Filter("eq.", Lookup(sp, "team"))
      && Lookup(ps, "def_tier") == Leaderboard.Filter("eq.", Lookup(sp, "defense_tier"))
      && Lookup(ps, "season") == Leaderboard.Filter("eq.", Some(Year(sp)))
      && Lookup(ps, "category") == Some("eq.pass")
      && Lookup(ps, "order") == Some("total_yards.desc.nullslast")
      && Lookup(ps, "limit") == Kept(Some(Limit(sp)))
  {
    var r := ViewRecord(sp);
    RecordsDistinct(sp);
    QueryLookup(r, 0);
    QueryLookup(r, 1);
    QueryLookup(r, 2);
    QueryLookup(r, 3);
    QueryLookup(r, 4);
    QueryLookup(r, 5);
    QueryLookup(r, 6);
    QueryLookup(r, 7);
  }

  /** A request without `year` or `limit` asks for the 2024 season and 100
      rows, whichever query it makes. */
  lemma QueryDefaults(sp: seq<Entry>)
    requires Lookup(sp, "year") == None && Lookup(sp, "limit") == None
    ensures var ps := Parse(SituationsQuery(sp));
      if Aggregate(sp) then Lookup(ps, "season_filter") == Some("2024") && Lookup(ps, "limit_count") == Some("100")
      else Lookup(ps, "season") == Some("eq.2024") && Lookup(ps, "limit") == Some("100")
  {
    assert Year(sp) == "2024" && Limit(sp) == "100";
    if Aggregate(sp) {
      RpcQueryParams(sp);
    } else {
      ViewQueryParams(sp);
      DefaultSeasonFilter();
    }
  }

  lemma DefaultSeasonFilter()
    ensures Leaderboard.Filter("eq.", Some("2024")) == Some("eq.2024")
  {
    assert "eq." + "2024" == "eq.2024";
  }

  // ---------------------------------------------------------------------------
  // The answer

  /** The JSON body of the store's answer: an array of objects, or any
      other value, on which the handler's `slice` or `map` throws a
      TypeError with message `error`. */
  datatype Body = RowList(rows: seq<Row>) | NotRowList(error: string)

  /** The rows sent back: aggregated by player, team and season, sorted
      and cut to the limit when totals were asked for; the store's rows
      projected otherwise. */
  function Processed(sp: seq<Entry>, rows: seq<Row>): seq<OutRow> {
    if Aggregate(sp) then AggregatedView(Groups(rows, Key), Limit(sp)) else ProjectAll(rows)
  }

  /** The handler: build the query, fetch, and answer with the processed
      rows, a store failure or an internal error. `url` is the address
      fetched. */
  method SituationsGet(sp: seq<Entry>, supabaseUrl: string, fetch: string -> Fetched<Body>)
    returns (reply: RouteReply<seq<OutRow>>, url: string)
    ensures url == supabaseUrl + Endpoint(sp) + "?" + SituationsQuery(sp)
    ensures match fetch(url)
      case Rejected(m) => reply == InternalError(m)
      case Response(status, text, json) =>
        if !IsOk(status) then reply == StoreFailure(status, text)
        else if json.Failure? then reply == InternalError(json.message)
        else match json.value
          case NotRowList(e) => reply == InternalError(e)
          case RowList(rows) => reply == Rows(Processed(sp, rows))
  {
    var endpoint, query := BuildQuery(sp);
    url := supabaseUrl + endpoint + "?" + query;
    var resp := fetch(url);
    match resp
    case Rejected(m) =>
      reply := InternalError(m);
    case Response(status, text, json) =>
      if !IsOk(status) {
        reply := StoreFailure(status, text);
      } else if json.Failure? {
        reply := InternalError(json.message);
      } else {
        match json.value
        case NotRowList(e) =>
          reply := InternalError(e);
        case RowList(rows) =>
          var out := Answer(sp, rows);
          reply := Rows(out);
      }
  }

  /** The store address and query string for a request. */
  method BuildQuery(sp: seq<Entry>) returns (endpoint: string, query: string)
    ensures endpoint == Endpoint(sp) && query == SituationsQuery(sp)
  {
    var params: SearchParams;
    if Lookup(sp, "aggregate") != Some("false") {
      RecordsDistinct(sp);
      params := Q(RpcRecord(sp));
      endpoint := "/rest/v1/rpc/get_aggregated_player_stats";
    } else {
      RecordsDistinct(sp);
      params := Q(ViewRecord(sp));
      endpoint := "/rest/v1/v_situational_leaderboard";
    }
    query := params.ToString();
  }

  /** The rows for the front end from the store's rows: aggregated with
      the `forEach` over a map when totals were asked for. */
  method Answer(sp: seq<Entry>, rows: seq<Row>) returns (out: seq<OutRow>)
    ensures out == Processed(sp, rows)
  {
    var limit := Lookup(sp, "limit").GetOr("100");
    if Lookup(sp, "aggregate") != Some("false") {
      var groups := AggregateRows(rows, Key);
      out := AggregatedView(groups, limit);
    } else {
      out := ProjectAll(rows);
    }
  }

  // ---------------------------------------------------------------------------
  // What the answer holds

  /** Without a `limit`, totals come back for the 100 largest groups, or
      for every group when there are fewer. */
  lemma DefaultLimit(sp: seq<Entry>, rows: seq<Row>)
    requires Aggregate(sp) && Lookup(sp, "limit") == None
    ensures var n := |KeysOf(rows, Key)|;
      |Processed(sp, rows)| == if n < 100 then n else 100
  {
    ViewLength(rows, Key, "100");
    HundredText();
    SliceOfCount(|KeysOf(rows, Key)|, 100);
  }

  lemma HundredText()
    ensures IntText(100) == "100"
  {
    assert NatText(100) == NatText(10) + [DigitChar(0)];
    assert NatText(10) == NatText(1) + [DigitChar(0)];
  }

  /** An empty `limit` is dropped from the query, but `parseInt("")` is NaN
      and `slice(0, NaN)` keeps nothing: totals come back empty. */
  lemma EmptyLimitKeepsNothing(sp: seq<Entry>, rows: seq<Row>)
    requires Aggregate(sp) && Lookup(sp, "limit") == Some("")
    ensures Processed(sp, rows) == []
    ensures !HasKey(Parse(SituationsQuery(sp)), "limit_count")
  {
    ViewLength(rows, Key, "");
    RpcQueryParams(sp);
    LookupNoneMeansAbsent(Parse(SituationsQuery(sp)), "limit_count");
  }

  lemma LookupNoneMeansAbsent(es: seq<Entry>, k: string)
    requires Lookup(es, k) == None
    ensures !HasKey(es, k)
  {
  }

  /** The situational rows are the store's rows, one for one, projected. */
  lemma SituationalRows(sp: seq<Entry>, rows: seq<Row>)
    requires !Aggregate(sp)
    ensures |Processed(sp, rows)| == |rows|
    ensures forall i :: 0 <= i < |rows| ==> Processed(sp, rows)[i] == Project(rows[i])
  {
  }

  /** With totals, the rows sent back show a top list of the groups by
      summed yards (each group at most once, descending, ties in the order
      of their first store row, no larger group left out), each with its
      first row's player. */
  lemma AggregatedRows(sp: seq<Entry>, rows: seq<Row>)
    requires Aggregate(sp)
    ensures ShowsGroups(rows, Key, Processed(sp, rows))
  {
    AggregatedViewRows(rows, Key, Limit(sp));
  }
}
