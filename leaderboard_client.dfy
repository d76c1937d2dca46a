/** The browser-side client of the situational leaderboard
    (app/api/situations.ts): `getLeaderboard` puts its truthy parameters
    into a query string, fetches `/api/situations/leaderboard`, and turns a
    failed response into an error. */
module LeaderboardClient {
  import opened Wrappers
  import opened Js
  import opened UrlParams
  import opened Http
  import Leaderboard

  /** The optional parameters of `getLeaderboard`. */
  datatype ClientParams = ClientParams(defCat: Option<string>, tier: Option<string>,
                                       limit: Option<JsNum>, offset: Option<JsNum>)

  /** `if (n) ... n.toString()`: the text of a truthy number, nothing for
      an absent one, zero or NaN. */
  function NumberParam(n: Option<JsNum>): (r: Option<string>)
    ensures r.Some? <==> n.Some? && Truthy(Num(n.value))
    ensures r.Some? ==> r.value == NumberText(n.value) && r.value != ""
  {
    if n.Some? && Truthy(Num(n.value)) then
      NumberTextNotEmpty(n.value);
      Some(NumberText(n.value))
    else None
  }

  /** The `set` calls, in order, as written: the category and the tier go
      out as `defCat` and `tier`. */
  function ClientRecord(p: ClientParams): seq<(string, Option<string>)> {
    [("defCat", p.defCat), ("tier", p.tier), ("limit", NumberParam(p.limit)), ("offset", NumberParam(p.offset))]
  }

  /** The `set` calls under the names the leaderboard route reads:
      `category` and `defTier`. */
  function FixedClientRecord(p: ClientParams): seq<(string, Option<string>)> {
    [("category", p.defCat), ("defTier", p.tier), ("limit", NumberParam(p.limit)), ("offset", NumberParam(p.offset))]
  }

  const LeaderboardPath := "/api/situations/leaderboard?"

  /** The `error` field of a failed response, or the fallback message. */
  function FailureMessage(error: Value): (m: string)
    ensures Truthy(error) ==> m == Text(error)
    ensures !Truthy(error) ==> m == "Failed to fetch leaderboard"
  {
    Text(Or(error, Str("Failed to fetch leaderboard")))
  }

  /** `getLeaderboard(params)`: the address fetched, and the parsed body
      or the message of the error thrown. `errorField` reads the `error`
      property of a parsed body. */
  method GetLeaderboard<J>(p: ClientParams, fetch: string -> Fetched<J>, errorField: J -> Value)
    returns (r: Result<J>, url: string)
    ensures url == LeaderboardPath + Serialize(Present(ClientRecord(p)))
    ensures match fetch(url)
      case Rejected(m) => r == Failure(m)
      case Response(status, _, json) =>
        if json.Failure? then r == Failure(json.message)
        else if !IsOk(status) then r == Failure(FailureMessage(errorField(json.value)))
        else r == Success(json.value)
  {
    var searchParams := Q(ClientRecord(p));
    url := LeaderboardPath + searchParams.ToString();
    match fetch(url)
    case Rejected(m) =>
      r := Failure(m);
    case Response(status, _, json) =>
      if !IsOk(status) {
        if json.Failure? {
          r := Failure(json.message);
        } else {
          r := Failure(FailureMessage(errorField(json.value)));
        }
      } else if json.Failure? {
        r := Failure(json.message);
      } else {
        r := Success(json.value);
      }
  }

  // ---------------------------------------------------------------------------
  // What the leaderboard route makes of the client's query

  /** The parameters the route sends to the store for a client query. */
  function StoreParams(record: seq<(string, Option<string>)>): seq<Entry> {
    Parse(Leaderboard.LeaderboardQuery(Parse(Serialize(Present(record)))))
  }

  /** A name the record does not use is absent from the query. */
  lemma AbsentName(record: seq<(string, Option<string>)>, k: string)
    requires forall i :: 0 <= i < |record| ==> record[i].0 != k
    ensures Lookup(Parse(Serialize(Present(record))), k) == None
  {
    ParseSerialize(Present(record));
    LookupPresentMissing(record, k);
  }

  /** As written, the route never filters by category or tier, whatever
      `defCat` and `tier` are: it reads `category` and `defTier`, which the
      client does not send. */
  lemma ClientFiltersIgnored(p: ClientParams)
    ensures !HasKey(StoreParams(ClientRecord(p)), "category")
    ensures !HasKey(StoreParams(ClientRecord(p)), "def_tier")
  {
    UnnamedFiltersIgnored(ClientRecord(p));
  }

  lemma UnnamedFiltersIgnored(record: seq<(string, Option<string>)>)
    requires forall i :: 0 <= i < |record| ==> record[i].0 != "category" && record[i].0 != "defTier"
    ensures !HasKey(StoreParams(record), "category") && !HasKey(StoreParams(record), "def_tier")
  {
    var sp := Parse(Serialize(Present(record)));
    AbsentName(record, "category");
    AbsentName(record, "defTier");
    NoFilterWithoutValue(sp);
  }

  /** With no `category` and no `defTier`, the route's parameters carry
      neither filter. */
  lemma NoFilterWithoutValue(sp: seq<Entry>)
    requires Lookup(sp, "category") == None && Lookup(sp, "defTier") == None
    ensures !HasKey(Parse(Leaderboard.LeaderboardQuery(sp)), "category")
    ensures !HasKey(Parse(Leaderboard.LeaderboardQuery(sp)), "def_tier")
  {
    Leaderboard.LeaderboardQueryParams(sp);
    NoFilterNamed(sp, "category", "category");
    NoFilterNamed(sp, "def_tier", "defTier");
  }

  /** The store parameter `k`, read from the request parameter `name`, is
      absent when `name` is. */
  lemma NoFilterNamed(sp: seq<Entry>, k: string, name: string)
    requires (k == "category" && name == "category") || (k == "def_tier" && name == "defTier")
    requires Lookup(sp, name) == None
    ensures !HasKey(Leaderboard.LeaderboardParams(sp), k)
  {
    var pos := Leaderboard.Param("position", "eq.", Lookup(sp, "position"));
    var cat := Leaderboard.Param("category", "eq.", Lookup(sp, "category"));
    var tier := Leaderboard.Param("def_tier", "eq.", Lookup(sp, "defTier"));
    var lower := Leaderboard.Param("season", "gte.", Lookup(sp, "seasonFrom"));
    var upper := Leaderboard.Param("season", "lte.", Lookup(sp, "seasonTo"));
    var post := Leaderboard.LeaderboardPost(sp);
    var ps := [("select", Leaderboard.Select)] + pos + cat + tier + lower + upper + post;
    assert Leaderboard.LeaderboardParams(sp) == ps;
    assert k == "category" ==> cat == [];
    assert k == "def_tier" ==> tier == [];
    forall e | e in ps ensures e.0 != k {
      if e in pos {
        assert e.0 == "position";
      } else if e in cat {
        assert e.0 == "category";
      } else if e in tier {
        assert e.0 == "def_tier";
      } else if e in lower || e in upper {
        assert e.0 == "season";
      } else if e in post {
        assert e.0 == "order" || e.0 == "limit";
      }
    }
  }
  /** With the names corrected, a non-empty category and tier reach the
      store as `category=eq.<defCat>` and `def_tier=eq.<tier>`. */
  lemma FixedClientFiltersReachStore(p: ClientParams)
    ensures p.defCat.Some? && p.defCat.value != "" ==>
      ("category", "eq." + p.defCat.value) in StoreParams(FixedClientRecord(p))
    ensures p.tier.Some? && p.tier.value != "" ==>
      ("def_tier", "eq." + p.tier.value) in StoreParams(FixedClientRecord(p))
  {
    var record := FixedClientRecord(p);
    assert DistinctKeys(record);
    NamedFiltersReachStore(record);
  }

  lemma NamedFiltersReachStore(record: seq<(string, Option<string>)>)
    requires DistinctKeys(record) && |record| >= 2
    requires record[0].0 == "category" && record[1].0 == "defTier"
    ensures var c := record[0].1;
      c.Some? && c.value != "" ==> ("category", "eq." + c.value) in StoreParams(record)
    ensures var t := record[1].1;
      t.Some? && t.value != "" ==> ("def_tier", "eq." + t.value) in StoreParams(record)
  {
    var sp := Parse(Serialize(Present(record)));
    ParseSerialize(Present(record));
    LookupPresent(record, 0);
    LookupPresent(record, 1);
    FilterInParams(sp);
  }

  /** A non-empty `category` or `defTier` becomes an equality filter. */
  lemma FilterInParams(sp: seq<Entry>)
    ensures var c := Lookup(sp, "category");
      c.Some? && c.value != "" ==> ("category", "eq." + c.value) in Parse(Leaderboard.LeaderboardQuery(sp))
    ensures var t := Lookup(sp, "defTier");
      t.Some? && t.value != "" ==> ("def_tier", "eq." + t.value) in Parse(Leaderboard.LeaderboardQuery(sp))
  {
    Leaderboard.LeaderboardQueryParams(sp);
  }
}
